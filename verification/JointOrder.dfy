/** How the simulator bridges order joints: a number read out of each joint's name, and a
    stable sort of the joint indices by it. */
module JointOrder {

  // Reading a number from a name

  /** A sort key: the number found, or Python's `float('inf')`. */
  datatype Key = Num(n: nat) | Infinite

  predicate Less(a: Key, b: Key) {
    a.Num? && (b.Infinite? || a.n < b.n)
  }

  predicate IsDigit(c: char) { '0' <= c <= '9' }

  /** `(\d+)` matched at the start of `s`. */
  function LeadingDigits(s: string): (d: string)
    ensures d <= s && forall c :: c in d ==> IsDigit(c)
    ensures |d| < |s| ==> !IsDigit(s[|d|])
  {
    if s != "" && IsDigit(s[0]) then [s[0]] + LeadingDigits(s[1..]) else ""
  }

  function ToInt(digits: string): nat
    requires forall c :: c in digits ==> IsDigit(c)
  {
    if digits == "" then 0
    else
      var last := digits[|digits| - 1];
      assert last in digits && IsDigit(last);
      10 * ToInt(digits[..|digits| - 1]) + (last as int - '0' as int)
  }

  /** `re.search(r'(\d+)', name)`: the Gazebo bridge's key. */
  function SearchNumber(name: string): Key {
    if name == "" then Infinite
    else if IsDigit(name[0]) then Num(ToInt(LeadingDigits(name)))
    else SearchNumber(name[1..])
  }

  const JOINT := "joint_"

  predicate JointHere(name: string) {
    JOINT <= name && |name| > |JOINT| && IsDigit(name[|JOINT|])
  }

  /** `re.search(r'joint_(\d+)', name)`: the MuJoCo bridge's key. */
  function SearchJoint(name: string): Key {
    if name == "" then Infinite
    else if JointHere(name) then Num(ToInt(LeadingDigits(name[|JOINT|..])))
    else SearchJoint(name[1..])
  }

  predicate NoDigits(s: string) {
    forall c :: c in s ==> !IsDigit(c)
  }

  lemma {:induction false} SkipToNumber(prefix: string, rest: string)
    requires NoDigits(prefix)
    ensures SearchNumber(prefix + rest) == SearchNumber(rest)
  {
    if prefix == "" {
      assert prefix + rest == rest;
    } else {
      assert !IsDigit(prefix[0]);
      assert (prefix + rest)[1..] == prefix[1..] + rest;
      SkipToNumber(prefix[1..], rest);
    }
  }

  lemma {:induction false} SkipToJoint(prefix: string, number: string)
    requires NoDigits(prefix) && number != "" && IsDigit(number[0])
    ensures SearchJoint(prefix + JOINT + number) == Num(ToInt(LeadingDigits(number)))
  {
    var name := prefix + JOINT + number;
    if prefix == "" {
      assert name[|JOINT|..] == number;
    } else {
      assert name[|JOINT|] == (prefix + JOINT)[|JOINT|];
      assert |JOINT| < |prefix| ==> prefix[|JOINT|] in prefix;
      assert name[1..] == prefix[1..] + JOINT + number;
      SkipToJoint(prefix[1..], number);
    }
  }

  lemma {:induction false} NoDigitsNoKey(name: string)
    requires NoDigits(name)
    ensures SearchNumber(name) == Infinite && SearchJoint(name) == Infinite
  {
    if name != "" {
      assert name[0] in name;
      assert |name| > |JOINT| ==> name[|JOINT|] in name;
      NoDigitsNoKey(name[1..]);
    }
  }

  /** The two keys agree on every name whose first digit follows `joint_`, and on every
      name without digits. */
  lemma KeysAgree(prefix: string, number: string)
    requires NoDigits(prefix) && number != "" && IsDigit(number[0])
    ensures var name := prefix + JOINT + number;
      SearchJoint(name) == SearchNumber(name) == Num(ToInt(LeadingDigits(number)))
    ensures SearchJoint(prefix) == SearchNumber(prefix) == Infinite
  {
    SkipToJoint(prefix, number);
    SkipToNumber(prefix + JOINT, number);
    assert prefix + JOINT + number == (prefix + JOINT) + number;
    NoDigitsNoKey(prefix);
  }

  predicate EndsInJoint(s: string) {
    |s| >= 6 && s[|s| - 6..] == "joint_"
  }

  /** A `joint_` that a digit follows has its digit where the first digit is, if it begins
      before it. */
  lemma NoJointHere(prefix: string, number: string)
    requires prefix != "" && NoDigits(prefix) && !EndsInJoint(prefix)
    requires number != "" && IsDigit(number[0])
    ensures !JointHere(prefix + number)
  {
    var name := prefix + number;
    assert |JOINT| < |prefix| ==> prefix[|JOINT|] in prefix;
    assert |prefix| < |JOINT| ==> !IsDigit(JOINT[|prefix|]) && name[|prefix|] == number[0];
    assert |prefix| == |JOINT| ==> prefix == name[..|JOINT|];
  }

  lemma {:induction false} SkipBeforeJoint(prefix: string, number: string)
    requires NoDigits(prefix) && !EndsInJoint(prefix)
    requires number != "" && IsDigit(number[0])
    ensures SearchJoint(prefix + number) == SearchJoint(number)
  {
    if prefix == "" {
      assert prefix + number == number;
    } else {
      NoJointHere(prefix, number);
      assert (prefix + number)[1..] == prefix[1..] + number;
      assert !EndsInJoint(prefix[1..]);
      SkipBeforeJoint(prefix[1..], number);
    }
  }

  lemma NumberOf(prefix: string, number: string)
    requires NoDigits(prefix) && number != "" && IsDigit(number[0])
    ensures SearchNumber(prefix + number) == Num(ToInt(LeadingDigits(number)))
  {
    SkipToNumber(prefix, number);
  }

  lemma AfterJoint(prefix: string, number: string)
    requires NoDigits(prefix) && EndsInJoint(prefix) && number != "" && IsDigit(number[0])
    ensures SearchJoint(prefix + number) == Num(ToInt(LeadingDigits(number)))
  {
    var before := prefix[..|prefix| - |JOINT|];
    assert prefix == before + JOINT;
    assert forall c :: c in before ==> c in prefix;
    SkipToJoint(before, number);
  }

  /** Where the first digit of a name stands; its length if it has none. */
  function FirstDigit(name: string): (k: nat)
    ensures k <= |name| && NoDigits(name[..k]) && (k < |name| ==> IsDigit(name[k]))
  {
    if name == "" || IsDigit(name[0]) then 0
    else
      var k := 1 + FirstDigit(name[1..]);
      assert name[..k] == [name[0]] + name[1..][..k - 1];
      k
  }

  /** Exactly when the two keys agree, for every name: it has no digit, or its first digit
      follows `joint_`, or the number after the first later `joint_` is the same. */
  lemma KeysAgreeIff(name: string)
    ensures var k := FirstDigit(name);
      SearchJoint(name) == SearchNumber(name) <==>
        || k == |name|
        || EndsInJoint(name[..k])
        || SearchJoint(name[k..]) == Num(ToInt(LeadingDigits(name[k..])))
  {
    hide SearchJoint, SearchNumber, ToInt, LeadingDigits, FirstDigit, NoDigits, EndsInJoint;
    var k := FirstDigit(name);
    var prefix, number := name[..k], name[k..];
    assert name == prefix + number;
    if k == |name| {
      assert name == prefix;
      NoDigitsNoKey(name);
    } else {
      NumberOf(prefix, number);
      if EndsInJoint(prefix) {
        AfterJoint(prefix, number);
      } else {
        SkipBeforeJoint(prefix, number);
      }
    }
  }

  /** `n` in decimal. */
  function Decimal(n: nat): (d: string)
    ensures d != "" && forall c :: c in d ==> IsDigit(c)
  {
    var last := ['0' + (n % 10) as char];
    if n < 10 then last else Decimal(n / 10) + last
  }

  lemma {:induction false} DecimalReadsBack(n: nat)
    ensures ToInt(Decimal(n)) == n
  {
    var d := Decimal(n);
    if n >= 10 {
      DecimalReadsBack(n / 10);
      assert d[..|d| - 1] == Decimal(n / 10);
    }
  }

  lemma {:induction false} DigitsThenRest(d: string, rest: string)
    requires (forall c :: c in d ==> IsDigit(c)) && (rest == "" || !IsDigit(rest[0]))
    ensures LeadingDigits(d + rest) == d
  {
    if d == "" {
      assert d + rest == rest;
    } else {
      assert d[0] in d && (d + rest)[1..] == d[1..] + rest;
      DigitsThenRest(d[1..], rest);
    }
  }

  /** Both bridges read `n` from a name like `robot_joint_n_link`, whatever `n` is. */
  lemma KeyOfJoint(prefix: string, n: nat, rest: string)
    requires NoDigits(prefix) && (rest == "" || !IsDigit(rest[0]))
    ensures var name := prefix + JOINT + Decimal(n) + rest; SearchJoint(name) == SearchNumber(name) == Num(n)
  {
    hide SearchJoint, SearchNumber, LeadingDigits, ToInt, NoDigits, Decimal;
    var number := Decimal(n) + rest;
    assert number[0] == Decimal(n)[0] && Decimal(n)[0] in Decimal(n);
    KeysAgree(prefix, number);
    DigitsThenRest(Decimal(n), rest);
    DecimalReadsBack(n);
    assert prefix + JOINT + Decimal(n) + rest == prefix + JOINT + number;
  }

  lemma SkipOne(c: char, rest: string)
    requires c != 'j'
    ensures SearchJoint([c] + rest) == SearchJoint(rest)
  {
    assert JOINT[0] == 'j' && ([c] + rest)[0] == c;
    assert ([c] + rest)[1..] == rest;
  }

  /** On a name `r<a>_joint_<b>` the one reads `b` and the other `a`. */
  lemma KeysOf(a: char, b: char)
    requires IsDigit(a) && IsDigit(b)
    ensures var name := "r" + [a] + "_joint_" + [b];
      SearchJoint(name) == Num(b as int - '0' as int) && SearchNumber(name) == Num(a as int - '0' as int)
  {
    hide LeadingDigits, ToInt, SearchNumber, SearchJoint, JointHere;
    var tail := "_joint_" + [b];
    var rest := [a] + tail;
    assert "r" + [a] + "_joint_" + [b] == "r" + rest;
    SkipToNumber("r", rest);
    NumberAtStart(a, tail);
    SkipOne('r', rest);
    SkipOne(a, tail);
    assert tail == ['_'] + (JOINT + [b]);
    SkipOne('_', JOINT + [b]);
    SkipToJoint("", [b]);
    NumberAtStart(b, "");
    assert "" + JOINT + [b] == JOINT + [b] && [b] + "" == [b];
  }

  /** They disagree on a name with an earlier number. */
  lemma KeysDisagree()
    ensures SearchJoint("r2_joint_1") == Num(1) && SearchNumber("r2_joint_1") == Num(2)
  {
    hide SearchJoint, SearchNumber;
    KeysOf('2', '1');
    assert "r" + ['2'] + "_joint_" + ['1'] == "r2_joint_1";
  }

  lemma NumberAtStart(digit: char, rest: string)
    requires IsDigit(digit) && (rest == "" || !IsDigit(rest[0]))
    ensures ToInt(LeadingDigits([digit] + rest)) == digit as int - '0' as int
    ensures SearchNumber([digit] + rest) == Num(digit as int - '0' as int)
  {
    DigitsThenRest([digit], rest);
    assert [digit][..0] == "";
  }

  // The stable sort

  /** Index `i` goes before index `j`: by key, and by place where the keys are equal. */
  predicate Before(keys: seq<Key>, i: nat, j: nat)
    requires i < |keys| && j < |keys|
  {
    Less(keys[i], keys[j]) || (keys[i] == keys[j] && i < j)
  }

  predicate Indices(keys: seq<Key>, p: seq<nat>) {
    forall a :: 0 <= a < |p| ==> p[a] < |keys|
  }

  predicate Ascending(keys: seq<Key>, p: seq<nat>)
    requires Indices(keys, p)
  {
    forall a, b :: 0 <= a < b < |p| ==> Before(keys, p[a], p[b])
  }

  /** `p` lists every index once, by key, equal keys in their original order. */
  ghost predicate IsStableOrder(keys: seq<Key>, p: seq<nat>) {
    && Indices(keys, p)
    && Ascending(keys, p)
    && forall i: nat :: i < |keys| ==> i in p
  }

  function Insert(keys: seq<Key>, p: seq<nat>, i: nat): (r: seq<nat>)
    requires Indices(keys, p) && i < |keys|
    ensures Indices(keys, r) && |r| == |p| + 1
  {
    if p == [] || Before(keys, i, p[0]) then [i] + p
    else [p[0]] + Insert(keys, p[1..], i)
  }

  function SortFirst(keys: seq<Key>, n: nat): (p: seq<nat>)
    requires n <= |keys|
    ensures Indices(keys, p) && |p| == n
  {
    if n == 0 then [] else Insert(keys, SortFirst(keys, n - 1), n - 1)
  }

  /** `sorted(range(len(keys)), key=...)` */
  function SortedIndices(keys: seq<Key>): (p: seq<nat>)
    ensures Indices(keys, p) && |p| == |keys|
  {
    SortFirst(keys, |keys|)
  }

  lemma AscendingCons(keys: seq<Key>, i: nat, p: seq<nat>)
    requires i < |keys| && Indices(keys, p) && Ascending(keys, p)
    requires forall j: nat :: j in p ==> Before(keys, i, j)
    ensures Ascending(keys, [i] + p)
  {
    var r := [i] + p;
    forall a, b | 0 <= a < b < |r| ensures Before(keys, r[a], r[b]) {
      assert r[b] == p[b - 1] && p[b - 1] in p;
      if a > 0 { assert r[a] == p[a - 1]; }
    }
  }

  lemma AscendingTail(keys: seq<Key>, p: seq<nat>)
    requires Indices(keys, p) && Ascending(keys, p) && p != []
    ensures Ascending(keys, p[1..]) && forall j: nat :: j in p[1..] ==> Before(keys, p[0], j)
  {
    forall j: nat | j in p[1..] ensures Before(keys, p[0], j) {
      var c :| 0 <= c < |p[1..]| && p[1..][c] == j;
      assert Before(keys, p[0], p[c + 1]);
    }
  }

  lemma {:induction false} InsertElements(keys: seq<Key>, p: seq<nat>, i: nat)
    requires Indices(keys, p) && i < |keys|
    ensures forall j: nat :: j in Insert(keys, p, i) <==> j in p || j == i
  {
    if p != [] && !Before(keys, i, p[0]) {
      InsertElements(keys, p[1..], i);
      assert p == [p[0]] + p[1..];
    }
  }

  lemma {:induction false} InsertKeeps(keys: seq<Key>, p: seq<nat>, i: nat)
    requires Indices(keys, p) && Ascending(keys, p) && i < |keys| && i !in p
    ensures Ascending(keys, Insert(keys, p, i))
  {
    if p == [] {
    } else if Before(keys, i, p[0]) {
      AscendingTail(keys, p);
      forall j: nat | j in p ensures Before(keys, i, j) {
        if j != p[0] { assert j in p[1..]; }
      }
      AscendingCons(keys, i, p);
    } else {
      assert p[0] in p && p == [p[0]] + p[1..];
      AscendingTail(keys, p);
      InsertKeeps(keys, p[1..], i);
      InsertElements(keys, p[1..], i);
      AscendingCons(keys, p[0], Insert(keys, p[1..], i));
    }
  }

  lemma {:induction false} SortFirstOrder(keys: seq<Key>, n: nat)
    requires n <= |keys|
    ensures Ascending(keys, SortFirst(keys, n))
    ensures forall i: nat :: i in SortFirst(keys, n) <==> i < n
  {
    if n > 0 {
      SortFirstOrder(keys, n - 1);
      InsertKeeps(keys, SortFirst(keys, n - 1), n - 1);
      InsertElements(keys, SortFirst(keys, n - 1), n - 1);
    }
  }

  lemma {:induction false} SameElementsSameOrder(keys: seq<Key>, p: seq<nat>, q: seq<nat>)
    requires Indices(keys, p) && Ascending(keys, p) && Indices(keys, q) && Ascending(keys, q)
    requires forall i: nat :: i in p <==> i in q
    ensures p == q
    decreases |p|
  {
    assert q != [] ==> q[0] in q;
    if p == [] {
    } else {
      assert p[0] in p && q != [] && q[0] in p;
      var a :| 0 <= a < |q| && q[a] == p[0];
      var b :| 0 <= b < |p| && p[b] == q[0];
      assert p[0] == q[0];
      assert p == [p[0]] + p[1..] && q == [q[0]] + q[1..];
      AscendingTail(keys, p);
      AscendingTail(keys, q);
      forall i: nat ensures i in p[1..] <==> i in q[1..] {
        assert i in p <==> i == p[0] || i in p[1..];
        assert i in q <==> i == q[0] || i in q[1..];
      }
      SameElementsSameOrder(keys, p[1..], q[1..]);
    }
  }

  /** The sort yields a stable order, and there is no other. */
  lemma SortedIsTheStableOrder(keys: seq<Key>, p: seq<nat>)
    ensures IsStableOrder(keys, p) <==> p == SortedIndices(keys)
  {
    SortFirstOrder(keys, |keys|);
    if IsStableOrder(keys, p) {
      forall i: nat ensures i in p <==> i in SortedIndices(keys) {
        if i in p { var a :| 0 <= a < |p| && p[a] == i; }
      }
      SameElementsSameOrder(keys, p, SortedIndices(keys));
    }
  }

  /** What that order means: by increasing number, joints of the same number as they came,
      and those without a number last. */
  lemma SortedByNumber(keys: seq<Key>, a: nat, b: nat)
    requires a < b < |keys|
    ensures var p := SortedIndices(keys);
      var first, second := keys[p[a]], keys[p[b]];
      && (first.Infinite? ==> second.Infinite?)
      && (first.Num? && second.Num? ==> first.n <= second.n)
      && (first == second ==> p[a] < p[b])
  {
    var p := SortedIndices(keys);
    SortedIsTheStableOrder(keys, p);
    assert Before(keys, p[a], p[b]);
  }

  // Permuting

  function Permute<T>(xs: seq<T>, p: seq<nat>): (ys: seq<T>)
    requires forall a :: 0 <= a < |p| ==> p[a] < |xs|
    ensures |ys| == |p| && forall a :: 0 <= a < |p| ==> ys[a] == xs[p[a]]
  {
    seq(|p|, a requires 0 <= a < |p| => xs[p[a]])
  }

  /** A list of indices below `n` that has each of them once. */
  ghost predicate IsPermutation(p: seq<nat>, n: nat) {
    && |p| == n
    && (forall a :: 0 <= a < |p| ==> p[a] < n)
    && (forall a, b :: 0 <= a < b < |p| ==> p[a] != p[b])
    && (forall i: nat :: i < n ==> i in p)
  }

  lemma SortedIsPermutation(keys: seq<Key>)
    ensures IsPermutation(SortedIndices(keys), |keys|)
  {
    var p := SortedIndices(keys);
    SortFirstOrder(keys, |keys|);
    forall a, b | 0 <= a < b < |p| ensures p[a] != p[b] {
      assert Before(keys, p[a], p[b]);
    }
  }

  lemma WithoutLast(p: seq<nat>, n: nat, k: nat) returns (q: seq<nat>)
    requires IsPermutation(p, n + 1) && k < |p| && p[k] == n
    ensures q == p[..k] + p[k + 1..] && IsPermutation(q, n)
  {
    q := p[..k] + p[k + 1..];
    forall i: nat | i < n ensures i in q {
      assert i in p;
      var a :| 0 <= a < |p| && p[a] == i;
      if a < k { assert q[a] == i; } else { assert q[a - 1] == i; }
    }
  }

  lemma PermuteSplit<T>(xs: seq<T>, p: seq<nat>, k: nat, q: seq<nat>)
    requires |xs| > 0 && IsPermutation(p, |xs|) && k < |p| && p[k] == |xs| - 1
    requires q == p[..k] + p[k + 1..] && IsPermutation(q, |xs| - 1)
    ensures var zs := Permute(xs[..|xs| - 1], q); Permute(xs, p) == zs[..k] + [xs[|xs| - 1]] + zs[k..]
  {
  }

  lemma InsertedMultiset<T>(zs: seq<T>, k: nat, x: T)
    requires k <= |zs|
    ensures multiset(zs[..k] + [x] + zs[k..]) == multiset(zs) + multiset{x}
  {
    assert zs == zs[..k] + zs[k..];
  }

  /** Nothing is lost or doubled by a permutation. */
  lemma {:induction false} PermutedMultiset<T>(xs: seq<T>, p: seq<nat>)
    requires IsPermutation(p, |xs|)
    ensures multiset(Permute(xs, p)) == multiset(xs)
    decreases |xs|
  {
    if xs == [] {
      assert Permute(xs, p) == [];
    } else {
      var n: nat := |xs| - 1;
      assert n in p;
      var k: nat :| k < |p| && p[k] == n;
      var q := WithoutLast(p, n, k);
      PermuteSplit(xs, p, k, q);
      PermutedMultiset(xs[..n], q);
      InsertedMultiset(Permute(xs[..n], q), k, xs[n]);
      assert xs == xs[..n] + [xs[n]];
    }
  }
}
