/** Publish-on-change as a function of the whole stream of commands, and what it loses:
    nothing but the lengths of the runs of equal commands. */
module ChangeStream {

  function Last<T>(s: seq<T>): T
    requires s != []
  {
    s[|s| - 1]
  }

  function Front<T>(s: seq<T>): seq<T>
    requires s != []
  {
    s[..|s| - 1]
  }

  /** The first command, and every command that differs from the one before it. */
  function Changes<T(==)>(s: seq<T>): (r: seq<T>)
    ensures s != [] ==> r != [] && Last(r) == Last(s)
    ensures s == [] ==> r == []
  {
    if s == [] then []
    else if Front(s) == [] || Last(s) != Last(Front(s)) then Changes(Front(s)) + [Last(s)]
    else Changes(Front(s))
  }

  function Repeat<T>(x: T, n: nat): seq<T> {
    seq(n, _ => x)
  }

  /** `values[0]` counts[0] times, then `values[1]` counts[1] times, and so on. */
  function Expand<T>(values: seq<T>, counts: seq<nat>): (s: seq<T>)
    requires |values| == |counts|
  {
    if values == [] then [] else Expand(Front(values), Front(counts)) + Repeat(Last(values), Last(counts))
  }

  predicate AllPositive(counts: seq<nat>) {
    forall i :: 0 <= i < |counts| ==> counts[i] > 0
  }

  predicate NoRepeats<T(==)>(values: seq<T>) {
    forall i :: 0 < i < |values| ==> values[i - 1] != values[i]
  }

  /** `values` with `counts` is the run-length encoding of `s`. */
  predicate IsRunLength<T(==)>(s: seq<T>, values: seq<T>, counts: seq<nat>) {
    |values| == |counts| && AllPositive(counts) && NoRepeats(values) && Expand(values, counts) == s
  }

  function Counts<T(==)>(s: seq<T>): (r: seq<nat>)
    ensures |r| == |Changes(s)|
  {
    if s == [] then []
    else if Front(s) == [] || Last(s) != Last(Front(s)) then Counts(Front(s)) + [1]
    else
      var c := Counts(Front(s));
      Front(c) + [Last(c) + 1]
  }

  lemma ExpandSnoc<T>(values: seq<T>, counts: seq<nat>, x: T, n: nat)
    requires |values| == |counts|
    ensures Expand(values + [x], counts + [n]) == Expand(values, counts) + Repeat(x, n)
  {
    assert Front(values + [x]) == values && Front(counts + [n]) == counts;
  }

  /** One run more at the end. */
  lemma SnocRun<T>(s: seq<T>, values: seq<T>, counts: seq<nat>, x: T, n: nat)
    requires |values| == |counts|
    requires Expand(values, counts) == s
    ensures IsRunLength(s + Repeat(x, n), values + [x], counts + [n])
      <==> IsRunLength(s, values, counts) && n > 0 && (values == [] || Last(values) != x)
  {
    hide AllPositive, NoRepeats, Expand, Last;
    ExpandSnoc(values, counts, x, n);
    PositiveSnoc(counts, n);
    NoRepeatsSnoc(values, x);
  }

  lemma PositiveSnoc(counts: seq<nat>, n: nat)
    ensures AllPositive(counts + [n]) <==> AllPositive(counts) && n > 0
  {
    var c := counts + [n];
    assert forall i :: 0 <= i < |counts| ==> c[i] == counts[i];
    assert c[|counts|] == n;
  }

  lemma NoRepeatsSnoc<T>(values: seq<T>, x: T)
    ensures NoRepeats(values + [x]) <==> NoRepeats(values) && (values == [] || Last(values) != x)
  {
    var v := values + [x];
    assert forall i :: 0 <= i < |values| ==> v[i] == values[i];
    assert v[|values|] == x;
    if NoRepeats(v) {
      forall i | 0 < i < |values| ensures values[i - 1] != values[i] { assert v[i - 1] != v[i]; }
      if values != [] { assert v[|values| - 1] != v[|values|]; }
    }
  }

  lemma SplitRun<T>(values: seq<T>, counts: seq<nat>)
    requires |values| == |counts| && values != []
    ensures values == Front(values) + [Last(values)] && counts == Front(counts) + [Last(counts)]
  {
  }

  lemma RepeatSnoc<T>(x: T, n: nat)
    ensures Repeat(x, n + 1) == Repeat(x, n) + [x]
  {
  }

  /** The published commands are the values of the stream's run-length encoding. */
  lemma {:induction false} ChangesAreRuns<T>(s: seq<T>)
    ensures IsRunLength(s, Changes(s), Counts(s))
  {
    if s != [] {
      var f, x := Front(s), Last(s);
      var v, c := Changes(f), Counts(f);
      ChangesAreRuns(f);
      assert s == f + [x];
      if f == [] || x != Last(f) {
        SnocRun(f, v, c, x, 1);
        assert Repeat(x, 1) == [x];
      } else {
        LongerRun(f, v, c);
      }
    }
  }

  lemma LongerRun<T>(f: seq<T>, v: seq<T>, c: seq<nat>)
    requires IsRunLength(f, v, c) && v != []
    ensures IsRunLength(f + [Last(v)], v, Front(c) + [Last(c) + 1])
  {
    var x, m, e := Last(v), Last(c), Expand(Front(v), Front(c));
    SplitRun(v, c);
    SnocRun(e, Front(v), Front(c), x, m);
    SnocRun(e, Front(v), Front(c), x, m + 1);
    RepeatSnoc(x, m);
    assert f == e + Repeat(x, m);
    assert f + [x] == e + Repeat(x, m + 1);
  }

  /** A run-length encoding without its last value. */
  lemma LastRun<T>(s: seq<T>, values: seq<T>, counts: seq<nat>)
    requires IsRunLength(s, values, counts) && values != []
    ensures var v, c, x, n := Front(values), Front(counts), Last(values), Last(counts);
      && n > 0 && s == Expand(v, c) + Repeat(x, n)
      && IsRunLength(Expand(v, c), v, c) && (v == [] || Last(v) != x)
      && (n > 1 ==> IsRunLength(Expand(v, c) + Repeat(x, n - 1), v + [x], c + [n - 1]))
  {
    hide AllPositive, NoRepeats, Repeat;
    var v, c, x, n := Front(values), Front(counts), Last(values), Last(counts);
    var e := Expand(v, c);
    SplitRun(values, counts);
    SnocRun(e, v, c, x, n);
    if n > 1 { SnocRun(e, v, c, x, n - 1); }
  }

  lemma LastOfSnoc<T>(s: seq<T>, x: T)
    ensures Last(s + [x]) == x && Front(s + [x]) == s
  {
  }

  lemma ChangesSnoc<T>(f: seq<T>, x: T)
    ensures var s, differs := f + [x], f == [] || x != Last(f);
      && Changes(s) == (if differs then Changes(f) + [x] else Changes(f))
      && Counts(s) == (if differs then Counts(f) + [1] else Front(Counts(f)) + [Last(Counts(f)) + 1])
  {
    hide Front, Last;
    LastOfSnoc(f, x);
  }

  lemma {:induction false} RunsAreChanges<T>(s: seq<T>, values: seq<T>, counts: seq<nat>)
    requires IsRunLength(s, values, counts)
    ensures values == Changes(s) && counts == Counts(s)
    decreases |s|
  {
    if values == [] {
      assert s == [];
    } else {
      hide *;
      var v, c, x, n := Front(values), Front(counts), Last(values), Last(counts);
      LastRun(s, values, counts);
      SplitRun(values, counts);
      RepeatSnoc(x, n - 1);
      var f := Expand(v, c) + Repeat(x, n - 1);
      assert s == f + [x];
      ChangesSnoc(f, x);
      if n == 1 {
        NoRepetition(x);
        assert f == Expand(v, c);
        if v != [] { LastOfRuns(f, v, c); } else { NoRuns(f, v, c); }
        RunsAreChanges(f, v, c);
        assert Changes(s) == v + [x] && Counts(s) == c + [n];
      } else {
        LastOfRuns(f, v + [x], c + [n - 1]);
        LastOfSnoc(v, x);
        LastOfSnoc(c, n - 1);
        RunsAreChanges(f, v + [x], c + [n - 1]);
        assert Changes(s) == v + [x] && Counts(s) == c + [n];
      }
    }
  }

  lemma NoRepetition<T>(x: T)
    ensures Repeat(x, 0) == []
  {
  }

  lemma NoRuns<T>(s: seq<T>, values: seq<T>, counts: seq<nat>)
    requires IsRunLength(s, values, counts) && values == []
    ensures s == []
  {
  }

  lemma LastOfRuns<T>(s: seq<T>, values: seq<T>, counts: seq<nat>)
    requires IsRunLength(s, values, counts) && values != []
    ensures s != [] && Last(s) == Last(values)
  {
    LastRun(s, values, counts);
  }

  /** Publish-on-change is lossless: the published commands together with how often each
      was repeated determine the stream, and are determined by it. */
  lemma RunLengthIff<T>(s: seq<T>, values: seq<T>, counts: seq<nat>)
    ensures IsRunLength(s, values, counts) <==> values == Changes(s) && counts == Counts(s)
  {
    ChangesAreRuns(s);
    if IsRunLength(s, values, counts) {
      RunsAreChanges(s, values, counts);
    }
  }
}
