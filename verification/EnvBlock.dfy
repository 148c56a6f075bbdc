/**
 Reading a process environment block: NUL-separated `KEY=value` segments, parsed by an index loop and
 cached for the life of the process.  Bytes are taken as characters.
 */
module EnvBlock {
  import opened Wrappers
  import opened AsciiText

  const NUL := '\0'

  /** `line.indexOf("=")`, or the length when there is none. */
  function EqIndex(line: string): (i: nat)
    ensures i <= |line| && '=' !in line[..i] && (i < |line| ==> line[i] == '=')
  {
    if line == [] || line[0] == '=' then 0
    else
      var i := 1 + EqIndex(line[1..]);
      assert line[..i] == [line[0]] + line[1..][..i - 1];
      i
  }

  /** The segment has a key: an '=' that is not its first character. */
  predicate Usable(line: string) { 0 < EqIndex(line) < |line| }

  /** The one property name whose assignment on a plain object calls a setter and stores nothing. */
  const PROTO := "__proto__"

  /** `out[key] = value` on a plain object, for a string value. */
  function Assigned(m: map<string, string>, key: string, value: string): map<string, string> {
    if key == PROTO then m else m[key := value]
  }

  function WithLine(m: map<string, string>, line: string): map<string, string> {
    if Usable(line) then Assigned(m, line[..EqIndex(line)], line[EqIndex(line) + 1..]) else m
  }

  function Fold(m: map<string, string>, lines: seq<string>): map<string, string>
    decreases |lines|
  {
    if lines == [] then m else Fold(WithLine(m, lines[0]), lines[1..])
  }

  /** What a block means: its segments in order, later ones winning. */
  function Meaning(buf: string): map<string, string> { Fold(map[], Split(buf, NUL)) }

  lemma {:induction false} SplitAtFirst(a: string, b: string)
    requires NUL !in a
    ensures Split(a + [NUL] + b, NUL) == [a] + Split(b, NUL)
  {
    var s := a + [NUL] + b;
    if a == [] {
      assert s[1..] == b;
    } else {
      assert s[1..] == a[1..] + [NUL] + b && a[0] in a && forall c <- a[1..] :: c in a;
      SplitAtFirst(a[1..], b);
      assert [a[0]] + a[1..] == a;
    }
  }

  lemma {:induction false} SplitWithout(a: string)
    requires NUL !in a
    ensures Split(a, NUL) == [a]
  {
    if a != [] {
      assert a[0] in a && forall c <- a[1..] :: c in a;
      SplitWithout(a[1..]);
      assert [a[0]] + a[1..] == a;
    }
  }

  lemma {:induction false} FoldConcat(m: map<string, string>, a: seq<string>, b: seq<string>)
    ensures Fold(m, a + b) == Fold(Fold(m, a), b)
    decreases |a|
  {
    if a == [] {
      assert a + b == b;
    } else {
      assert (a + b)[1..] == a[1..] + b;
      FoldConcat(WithLine(m, a[0]), a[1..], b);
    }
  }

  /** What a process may be asked for: the block itself, or a platform or file error. */
  datatype Source = NoProcFs | Unreadable | Block(buf: string)

  class EnvReader {
    /** Unset until the first call; then the map, or none if it could not be read. */
    var cache: Option<Option<map<string, string>>>

    constructor ()
      ensures cache == None
    {
      cache := None;
    }

    method ParseLinuxEnviron(source: Source) returns (env: Option<map<string, string>>)
      modifies this
      ensures cache == Some(env)
      ensures old(cache).Some? ==> env == old(cache).value
      ensures old(cache).None? ==> env == if source.Block? then Some(Meaning(source.buf)) else None
    {
      if cache.Some? { return cache.value; }
      if !source.Block? {
        cache := Some(None);
        return None;
      }
      var out := ParseBlock(source.buf);
      cache := Some(Some(out));
      env := Some(out);
    }
  }

  /** The loop reaches the end of a segment at `i`. */
  lemma EndOfSegment(out: map<string, string>, buf: string, start: nat, i: nat)
    requires start <= i <= |buf| && NUL !in buf[start..i] && (i < |buf| ==> buf[i] == NUL)
    ensures Fold(out, Split(buf[start..], NUL))
            == if i == |buf| then WithLine(out, buf[start..i])
               else Fold(WithLine(out, buf[start..i]), Split(buf[i + 1..], NUL))
  {
    var line := buf[start..i];
    if i == |buf| {
      assert buf[start..] == line;
      SplitWithout(line);
      FoldOne(out, line);
    } else {
      assert buf[start..] == line + [NUL] + buf[i + 1..];
      SplitAtFirst(line, buf[i + 1..]);
      FoldConcat(out, [line], Split(buf[i + 1..], NUL));
      FoldOne(out, line);
    }
  }

  lemma FoldOne(m: map<string, string>, line: string)
    ensures Fold(m, [line]) == WithLine(m, line)
  {
    assert [line][1..] == [];
  }

  /** The segment open at `start` reaches to `i`, and `out` is the meaning of everything before it. */
  ghost predicate ReadUpTo(buf: string, out: map<string, string>, start: nat, i: nat) {
    start <= i <= |buf| + 1
    && (i <= |buf| ==> NUL !in buf[start..i] && Meaning(buf) == Fold(out, Split(buf[start..], NUL)))
    && (i > |buf| ==> Meaning(buf) == out)
  }

  lemma SegmentGoesOn(buf: string, out: map<string, string>, start: nat, i: nat)
    requires ReadUpTo(buf, out, start, i) && i < |buf| && buf[i] != NUL
    ensures ReadUpTo(buf, out, start, i + 1)
  {
    assert buf[start..i + 1] == buf[start..i] + [buf[i]];
  }

  lemma SegmentEnds(buf: string, out: map<string, string>, start: nat, i: nat)
    requires ReadUpTo(buf, out, start, i) && i <= |buf| && (i < |buf| ==> buf[i] == NUL)
    ensures ReadUpTo(buf, WithLine(out, buf[start..i]), i + 1, i + 1)
  {
    EndOfSegment(out, buf, start, i);
  }

  method ParseBlock(buf: string) returns (out: map<string, string>)
    ensures out == Meaning(buf)
  {
    out := map[];
    assert buf[0..] == buf;
    var start, i := 0, 0;
    while i <= |buf|
      invariant 0 <= start <= i && ReadUpTo(buf, out, start, i)
    {
      if i == |buf| || buf[i] == NUL {
        SegmentEnds(buf, out, start, i);
        if i > start {
          var line := buf[start..i];
          var eq := EqIndex(line);
          if 0 < eq < |line| {
            out := Assigned(out, line[..eq], line[eq + 1..]);
          }
        }
        start := i + 1;
      } else {
        SegmentGoesOn(buf, out, start, i);
      }
      i := i + 1;
    }
  }

  // ---------------------------------------------------------------- round trip

  /** A variable that a block can carry. */
  predicate Representable(kv: (string, string)) {
    kv.0 != [] && '=' !in kv.0 && '\0' !in kv.0 && '\0' !in kv.1
  }

  function LineOf(kv: (string, string)): string { kv.0 + "=" + kv.1 }

  /** The block for a list of variables, with or without a NUL after the last. */
  function Serialised(vars: seq<(string, string)>, trailing: bool): string {
    if vars == [] then []
    else if |vars| == 1 && !trailing then LineOf(vars[0])
    else LineOf(vars[0]) + "\0" + Serialised(vars[1..], trailing)
  }

  /** The last value of every key. */
  function LastWins(m: map<string, string>, vars: seq<(string, string)>): map<string, string>
    decreases |vars|
  {
    if vars == [] then m else LastWins(m[vars[0].0 := vars[0].1], vars[1..])
  }

  lemma {:induction false} EqAfterKey(key: string, value: string)
    requires '=' !in key
    ensures EqIndex(key + "=" + value) == |key|
  {
    if key != [] {
      assert key[0] in key && forall c <- key[1..] :: c in key;
      assert (key + "=" + value)[1..] == key[1..] + "=" + value;
      EqAfterKey(key[1..], value);
    }
  }

  lemma LineReadsBack(m: map<string, string>, kv: (string, string))
    requires Representable(kv)
    ensures NUL !in LineOf(kv) && WithLine(m, LineOf(kv)) == Assigned(m, kv.0, kv.1)
  {
    EqAfterKey(kv.0, kv.1);
    assert LineOf(kv)[..|kv.0|] == kv.0 && LineOf(kv)[|kv.0| + 1..] == kv.1;
  }

  /** Assigning the variables one after the other. */
  function AllAssigned(m: map<string, string>, vars: seq<(string, string)>): map<string, string>
    decreases |vars|
  {
    if vars == [] then m else AllAssigned(Assigned(m, vars[0].0, vars[0].1), vars[1..])
  }

  lemma {:induction false} FoldReadsBack(m: map<string, string>, vars: seq<(string, string)>, trailing: bool)
    requires forall kv <- vars :: Representable(kv)
    ensures Fold(m, Split(Serialised(vars, trailing), NUL)) == AllAssigned(m, vars)
    decreases |vars|
  {
    if vars == [] {
      assert Split([], NUL) == [[]];
      assert !Usable([]);
      FoldOne(m, []);
    } else {
      var kv, line := vars[0], LineOf(vars[0]);
      assert kv in vars && forall x <- vars[1..] :: x in vars;
      LineReadsBack(m, kv);
      if |vars| == 1 && !trailing {
        SplitWithout(line);
        FoldOne(m, line);
        assert vars[1..] == [];
      } else {
        var rest := Serialised(vars[1..], trailing);
        SplitAtFirst(line, rest);
        assert ([line] + Split(rest, NUL))[1..] == Split(rest, NUL);
        FoldReadsBack(Assigned(m, kv.0, kv.1), vars[1..], trailing);
      }
    }
  }

  lemma {:induction false} AssignedExceptProto(m: map<string, string>, m': map<string, string>,
                                               vars: seq<(string, string)>)
    requires m == m' - {PROTO}
    ensures AllAssigned(m, vars) == LastWins(m', vars) - {PROTO}
    decreases |vars|
  {
    if vars != [] {
      var kv := vars[0];
      assert Assigned(m, kv.0, kv.1) == m'[kv.0 := kv.1] - {PROTO};
      AssignedExceptProto(Assigned(m, kv.0, kv.1), m'[kv.0 := kv.1], vars[1..]);
    }
  }

  /**
   Parsing the block of any list of representable variables gives back the last value of every key
   except `__proto__`; so it gives back everything if and only if no variable has that key.
   */
  lemma EnvironRoundTrip(vars: seq<(string, string)>, trailing: bool)
    requires forall kv <- vars :: Representable(kv)
    ensures var parsed, last := Meaning(Serialised(vars, trailing)), LastWins(map[], vars);
            parsed == last - {"__proto__"} && (parsed == last <==> forall kv <- vars :: kv.0 != "__proto__")
  {
    var none: map<string, string> := map[];
    FoldReadsBack(none, vars, trailing);
    assert none == none - {"__proto__"};
    AssignedExceptProto(none, none, vars);
    LastWinsLooksUp(none, vars, "__proto__");
    var parsed, last := Meaning(Serialised(vars, trailing)), LastWins(none, vars);
    assert parsed == last <==> "__proto__" !in last;
  }

  /** The variable that is lost: its block parses to nothing at all. */
  lemma ProtoIsLost(value: string, trailing: bool)
    requires '\0' !in value
    ensures Representable(("__proto__", value)) && Meaning(Serialised([("__proto__", value)], trailing)) == map[]
    ensures LastWins(map[], [("__proto__", value)]) == map["__proto__" := value]
  {
    var vars := [("__proto__", value)];
    EnvironRoundTrip(vars, trailing);
    assert vars[1..] == [];
    assert LastWins(map[], vars) - {"__proto__"} == map[];
  }

  /** A variable is defined exactly if it occurs, and has its last value. */
  lemma {:induction false} LastWinsLooksUp(m: map<string, string>, vars: seq<(string, string)>, key: string)
    ensures key in LastWins(m, vars) <==> key in m || exists kv <- vars :: kv.0 == key
    ensures forall i :: 0 <= i < |vars| && vars[i].0 == key && (forall j :: i < j < |vars| ==> vars[j].0 != key)
              ==> LastWins(m, vars)[key] == vars[i].1
    ensures (forall kv <- vars :: kv.0 != key) && key in m ==> LastWins(m, vars)[key] == m[key]
    decreases |vars|
  {
    if vars != [] {
      LastWinsLooksUp(m[vars[0].0 := vars[0].1], vars[1..], key);
      assert forall kv :: kv in vars <==> kv == vars[0] || kv in vars[1..];
      forall i | 0 <= i < |vars| && vars[i].0 == key && (forall j :: i < j < |vars| ==> vars[j].0 != key)
        ensures LastWins(m, vars)[key] == vars[i].1
      {
        if i > 0 {
          assert vars[1..][i - 1] == vars[i];
          assert forall j :: i - 1 < j < |vars[1..]| ==> vars[1..][j] == vars[j + 1];
        }
      }
    }
  }

  /** Segments without a usable '=' contribute nothing, wherever they stand. */
  lemma UnusableSegmentIgnored(before: seq<string>, segment: string, after: seq<string>)
    requires '=' !in segment || segment[0] == '='
    ensures Fold(map[], before + [segment] + after) == Fold(map[], before + after)
  {
    FoldConcat(map[], before + [segment], after);
    FoldConcat(map[], before, [segment]);
    FoldConcat(map[], before, after);
    var m := Fold(map[], before);
    FoldOne(m, segment);
  }
}
