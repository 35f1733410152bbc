/** Shared vocabulary: optional values, JavaScript text primitives, and the
    "keep the first row of every key" idiom that several screens rely on. */
module Basics {

  datatype Option<+T> = None | Some(value: T)

  // ---------------------------------------------------------------- text

  /** WhiteSpace and LineTerminator code points, which `String.prototype.trim` removes. */
  predicate IsSpace(c: char) {
    var n := c as int;
    9 <= n <= 13 || n == 0x20 || n == 0xA0 || n == 0x1680 || 0x2000 <= n <= 0x200A
    || n == 0x2028 || n == 0x2029 || n == 0x202F || n == 0x205F || n == 0x3000 || n == 0xFEFF
  }

  function TrimLeft(s: string): string {
    if s != "" && IsSpace(s[0]) then TrimLeft(s[1..]) else s
  }

  function TrimRight(s: string): string {
    if s != "" && IsSpace(s[|s| - 1]) then TrimRight(s[..|s| - 1]) else s
  }

  function Trim(s: string): string {
    TrimRight(TrimLeft(s))
  }

  /** `!text.trim()`. */
  predicate IsBlank(s: string) {
    forall i :: 0 <= i < |s| ==> IsSpace(s[i])
  }

  lemma {:induction false} TrimOfBlank(s: string)
    ensures Trim(s) == "" <==> IsBlank(s)
  {
    TrimLeftOfBlank(s);
    TrimRightOfBlank(TrimLeft(s));
  }

  lemma {:induction false} TrimLeftOfBlank(s: string)
    ensures IsBlank(TrimLeft(s)) <==> IsBlank(s)
  {
    if s != "" && IsSpace(s[0]) {
      TrimLeftOfBlank(s[1..]);
      assert s == [s[0]] + s[1..];
    }
  }

  lemma {:induction false} TrimRightOfBlank(s: string)
    ensures TrimRight(s) == "" <==> IsBlank(s)
  {
    if s != "" && IsSpace(s[|s| - 1]) {
      TrimRightOfBlank(s[..|s| - 1]);
      assert s == s[..|s| - 1] + [s[|s| - 1]];
    }
  }

  predicate IsDigit(c: char) {
    '0' <= c <= '9'
  }

  predicate AllDigits(s: string) {
    forall i :: 0 <= i < |s| ==> IsDigit(s[i])
  }

  function DigitValue(c: char): nat
    requires IsDigit(c)
  {
    c as int - '0' as int
  }

  /** `Number(text)` for a text of decimal digits. */
  function Decimal(s: string): nat
    requires AllDigits(s)
  {
    if s == "" then 0 else 10 * Decimal(s[..|s| - 1]) + DigitValue(s[|s| - 1])
  }

  /** The place of the first `c`, or the length of the text. */
  function IndexOf(s: string, c: char): (i: nat)
    ensures i <= |s| && c !in s[..i] && (i < |s| ==> s[i] == c)
  {
    if s == "" || s[0] == c then 0 else 1 + IndexOf(s[1..], c)
  }

  /** A match of `\d+(?:\.(\d+))?` against a whole text. */
  datatype DecimalText = DecimalText(whole: string, fraction: Option<string>)

  function MatchDecimal(s: string): Option<DecimalText> {
    var dot := IndexOf(s, '.');
    var whole := s[..dot];
    if whole == "" || !AllDigits(whole) then None
    else if dot == |s| then Some(DecimalText(whole, None))
    else
      var fraction := s[dot + 1..];
      if fraction == "" || !AllDigits(fraction) then None else Some(DecimalText(whole, Some(fraction)))
  }

  /** A fraction with its point. */
  function Tail(fraction: Option<string>): string {
    if fraction.Some? then "." + fraction.value else ""
  }

  predicate IsDecimal(d: DecimalText) {
    && d.whole != "" && AllDigits(d.whole)
    && (d.fraction.Some? ==> d.fraction.value != "" && AllDigits(d.fraction.value))
  }

  lemma MatchedDecimal(s: string)
    requires MatchDecimal(s).Some?
    ensures var m := MatchDecimal(s).value; s == m.whole + Tail(m.fraction) && IsDecimal(m)
  {
  }

  lemma {:induction false} NoPointInDigits(s: string)
    requires AllDigits(s)
    ensures IndexOf(s, '.') == |s|
  {
    if s != "" {
      NoPointInDigits(s[1..]);
    }
  }

  lemma {:induction false} PointAfterDigits(whole: string, rest: string)
    requires AllDigits(whole)
    ensures IndexOf(whole + "." + rest, '.') == |whole|
  {
    var s := whole + "." + rest;
    if whole != "" {
      assert IsDigit(whole[0]);
      PointAfterDigits(whole[1..], rest);
      assert s[1..] == whole[1..] + "." + rest;
    }
  }

  lemma MatchesItsParts(d: DecimalText)
    requires IsDecimal(d)
    ensures MatchDecimal(d.whole + Tail(d.fraction)) == Some(d)
  {
    var s := d.whole + Tail(d.fraction);
    if d.fraction.None? {
      assert s == d.whole;
      NoPointInDigits(d.whole);
      assert s[..|s|] == s;
    } else {
      assert s == d.whole + "." + d.fraction.value;
      PointAfterDigits(d.whole, d.fraction.value);
      assert s[..|d.whole|] == d.whole && s[|d.whole| + 1..] == d.fraction.value;
    }
  }

  /** A decimal is matched exactly if the text is its digits, and its point and fraction if
      it has one: nothing else is accepted, and nothing of that form refused. */
  lemma MatchDecimalMeans(s: string, d: DecimalText)
    ensures MatchDecimal(s) == Some(d) <==> IsDecimal(d) && s == d.whole + Tail(d.fraction)
  {
    if MatchDecimal(s) == Some(d) {
      MatchedDecimal(s);
    }
    if IsDecimal(d) && s == d.whole + Tail(d.fraction) {
      MatchesItsParts(d);
    }
  }

  /** The decimal digits of a number, as it is printed. */
  function Printed(n: nat): string {
    var last := [('0' as int + n % 10) as char];
    if n < 10 then last else Printed(n / 10) + last
  }

  /** Reading back a printed number gives the number, and leading zeros do not matter. */
  lemma {:induction false} DecimalOfPrinted(n: nat)
    ensures AllDigits(Printed(n)) && Decimal(Printed(n)) == n
  {
    var last := ('0' as int + n % 10) as char;
    assert DigitValue(last) == n % 10;
    if n < 10 {
      assert Decimal([last]) == DigitValue(last) by {
        assert [last][..0] == "" && Decimal("") == 0;
      }
    } else {
      DecimalOfPrinted(n / 10);
      var s := Printed(n);
      assert s[..|s| - 1] == Printed(n / 10) && s[|s| - 1] == last;
      assert AllDigits(s);
    }
  }

  lemma {:induction false} LeadingZero(s: string)
    requires AllDigits(s)
    ensures AllDigits("0" + s) && Decimal("0" + s) == Decimal(s)
  {
    var longer := "0" + s;
    if s == "" {
      assert longer[..0] == "" && DigitValue('0') == 0;
      assert Decimal(longer) == 10 * Decimal(longer[..0]) + DigitValue(longer[0]);
    } else {
      var n := |s| - 1;
      LeadingZero(s[..n]);
      assert longer[..|longer| - 1] == "0" + s[..n];
    }
  }

  // ------------------------------------------------- first row of every key

  predicate HasKey<T, K(==)>(s: seq<T>, key: T -> K, k: K) {
    exists i :: 0 <= i < |s| && key(s[i]) == k
  }

  /** `Array.prototype.find` on a key. */
  function Find<T, K(==)>(s: seq<T>, key: T -> K, k: K): Option<T> {
    if s == [] then None
    else if key(s[0]) == k then Some(s[0])
    else Find(s[1..], key, k)
  }

  /** The place of the first row with the key, or the number of rows. */
  function FindIndex<T, K(==)>(s: seq<T>, key: T -> K, k: K): (i: nat)
    ensures i <= |s| && (i < |s| ==> key(s[i]) == k)
    ensures i == |s| <==> !HasKey(s, key, k)
    ensures Find(s, key, k) == if i < |s| then Some(s[i]) else None
  {
    if s == [] then 0
    else if key(s[0]) == k then
      assert HasKey(s, key, k);
      0
    else
      assert HasKey(s[1..], key, k) <==> HasKey(s, key, k) by {
        HasKeyInConcat([s[0]], s[1..], key, k);
        assert [s[0]] + s[1..] == s;
      }
      1 + FindIndex(s[1..], key, k)
  }

  ghost predicate DistinctKeys<T, K>(s: seq<T>, key: T -> K) {
    forall i, j :: 0 <= i < j < |s| ==> key(s[i]) != key(s[j])
  }

  function PushNew<T, K(==)>(s: seq<T>, key: T -> K, x: T): seq<T> {
    if HasKey(s, key, key(x)) then s else s + [x]
  }

  /** Pushes, in order, the rows of `incoming` whose key is not there yet. */
  function Absorb<T, K(==)>(existing: seq<T>, incoming: seq<T>, key: T -> K): seq<T> {
    if incoming == [] then existing
    else PushNew(Absorb(existing, incoming[..|incoming| - 1], key), key, incoming[|incoming| - 1])
  }

  lemma FindMeans<T, K>(s: seq<T>, key: T -> K, k: K)
    ensures Find(s, key, k).Some? <==> HasKey(s, key, k)
    ensures Find(s, key, k).Some? ==> key(Find(s, key, k).value) == k && Find(s, key, k).value in s
  {
  }

  lemma FindInConcat<T, K>(a: seq<T>, b: seq<T>, key: T -> K, k: K)
    ensures Find(a + b, key, k) == if HasKey(a, key, k) then Find(a, key, k) else Find(b, key, k)
  {
    FindMeans(a, key, k);
    if a == [] {
      assert a + b == b;
    } else {
      assert (a + b)[1..] == a[1..] + b;
      FindInConcat(a[1..], b, key, k);
      FindMeans(a[1..], key, k);
    }
  }

  lemma HasKeyInConcat<T, K>(a: seq<T>, b: seq<T>, key: T -> K, k: K)
    ensures HasKey(a + b, key, k) <==> HasKey(a, key, k) || HasKey(b, key, k)
  {
    if HasKey(a, key, k) {
      var i :| 0 <= i < |a| && key(a[i]) == k;
      assert (a + b)[i] == a[i];
    }
    if HasKey(b, key, k) {
      var i :| 0 <= i < |b| && key(b[i]) == k;
      assert (a + b)[|a| + i] == b[i];
    }
  }

  /** Replacing the first row with a key by another row with that key. */
  lemma FindAfterUpdate<T, K>(s: seq<T>, i: nat, x: T, key: T -> K, k: K)
    requires i < |s| && i == FindIndex(s, key, key(x))
    ensures Find(s[i := x], key, k) == if k == key(x) then Some(x) else Find(s, key, k)
  {
    if i == 0 {
      assert s[0 := x][1..] == s[1..];
    } else {
      assert s[i := x][1..] == s[1..][i - 1 := x];
      FindAfterUpdate(s[1..], i - 1, x, key, k);
    }
  }

  lemma SameKeySameRow<T, K>(s: seq<T>, key: T -> K, i: nat, j: nat)
    requires DistinctKeys(s, key) && i < |s| && j < |s| && key(s[i]) == key(s[j])
    ensures i == j
  {
  }

  /** With distinct keys, the row found under a row's key is that row. */
  lemma FindIsThatRow<T, K>(s: seq<T>, key: T -> K, i: nat)
    requires DistinctKeys(s, key) && i < |s|
    ensures Find(s, key, key(s[i])) == Some(s[i])
  {
    if i > 0 {
      assert key(s[0]) != key(s[i]);
      FindIsThatRow(s[1..], key, i - 1);
    }
  }

  /** What absorbing leaves: the rows that were there come first, and every look-up by
      key gives the first row with that key among all rows offered. */
  lemma {:induction false} AbsorbKeepsFirst<T, K>(existing: seq<T>, incoming: seq<T>, key: T -> K, k: K)
    ensures existing <= Absorb(existing, incoming, key)
    ensures HasKey(Absorb(existing, incoming, key), key, k) <==> HasKey(existing + incoming, key, k)
    ensures Find(Absorb(existing, incoming, key), key, k) == Find(existing + incoming, key, k)
  {
    if incoming == [] {
      assert existing + incoming == existing;
    } else {
      var n := |incoming| - 1;
      var before := Absorb(existing, incoming[..n], key);
      AbsorbKeepsFirst(existing, incoming[..n], key, k);
      AbsorbKeepsFirst(existing, incoming[..n], key, key(incoming[n]));
      assert existing + incoming == (existing + incoming[..n]) + [incoming[n]];
      FindMeans(before, key, k);
      FindInConcat(existing + incoming[..n], [incoming[n]], key, k);
      FindInConcat(before, [incoming[n]], key, k);
      HasKeyInConcat(existing + incoming[..n], [incoming[n]], key, k);
      HasKeyInConcat(before, [incoming[n]], key, k);
    }
  }

  lemma {:induction false} AbsorbIsDistinct<T, K>(existing: seq<T>, incoming: seq<T>, key: T -> K)
    requires DistinctKeys(existing, key)
    ensures DistinctKeys(Absorb(existing, incoming, key), key)
  {
    if incoming != [] {
      AbsorbIsDistinct(existing, incoming[..|incoming| - 1], key);
    }
  }

  lemma {:induction false} AbsorbInSteps<T, K>(existing: seq<T>, a: seq<T>, b: seq<T>, key: T -> K)
    ensures Absorb(Absorb(existing, a, key), b, key) == Absorb(existing, a + b, key)
  {
    if b == [] {
      assert a + b == a;
    } else {
      var n := |b| - 1;
      AbsorbInSteps(existing, a, b[..n], key);
      assert (a + b)[..|a + b| - 1] == a + b[..n];
    }
  }

  /** Rows whose keys are all present add nothing. */
  lemma {:induction false} AbsorbNothingNew<T, K>(existing: seq<T>, incoming: seq<T>, key: T -> K)
    requires forall i :: 0 <= i < |incoming| ==> HasKey(existing, key, key(incoming[i]))
    ensures Absorb(existing, incoming, key) == existing
  {
    if incoming != [] {
      AbsorbNothingNew(existing, incoming[..|incoming| - 1], key);
    }
  }

  /** Rows with new, pairwise distinct keys are all kept. */
  lemma {:induction false} AbsorbAllNew<T, K>(existing: seq<T>, incoming: seq<T>, key: T -> K)
    requires DistinctKeys(existing + incoming, key)
    ensures Absorb(existing, incoming, key) == existing + incoming
  {
    if incoming == [] {
      assert existing + incoming == existing;
    } else {
      var n := |incoming| - 1;
      assert existing + incoming == (existing + incoming[..n]) + [incoming[n]];
      var all := existing + incoming;
      assert all[..|all| - 1] == existing + incoming[..n];
      assert !HasKey(all[..|all| - 1], key, key(all[|all| - 1]));
      AbsorbAllNew(existing, incoming[..n], key);
    }
  }

  // ------------------------------------------------------- counting keys

  ghost function KeySet<T, K>(s: seq<T>, key: T -> K): set<K> {
    set x | x in s :: key(x)
  }

  lemma KeySetPush<T, K>(s: seq<T>, key: T -> K)
    requires s != []
    ensures KeySet(s, key) == KeySet(s[..|s| - 1], key) + {key(s[|s| - 1])}
  {
  }

  lemma KeySetHas<T, K>(s: seq<T>, key: T -> K, k: K)
    ensures k in KeySet(s, key) <==> HasKey(s, key, k)
  {
  }

  lemma DistinctPush<T, K>(s: seq<T>, key: T -> K)
    requires s != []
    ensures DistinctKeys(s, key) <==>
            DistinctKeys(s[..|s| - 1], key) && !HasKey(s[..|s| - 1], key, key(s[|s| - 1]))
  {
  }

  /** Pigeonhole: there are as many keys as rows exactly when no key repeats. */
  lemma {:induction false} KeySetSize<T, K>(s: seq<T>, key: T -> K)
    ensures |KeySet(s, key)| <= |s|
    ensures |KeySet(s, key)| == |s| <==> DistinctKeys(s, key)
  {
    if s != [] {
      var n := |s| - 1;
      KeySetSize(s[..n], key);
      KeySetPush(s, key);
      KeySetHas(s[..n], key, key(s[n]));
      DistinctPush(s, key);
    }
  }

  lemma {:induction false} SubsetSize<T>(a: set<T>, b: set<T>)
    requires a <= b
    ensures |a| <= |b|
  {
    if a != {} {
      var x :| x in a;
      SubsetSize(a - {x}, b - {x});
    }
  }

  lemma OnlyElement<T>(s: set<T>, a: T, b: T)
    requires |s| == 1 && a in s && b in s
    ensures a == b
  {
    assert |s - {a}| == 0;
    assert b !in s - {a};
  }

  lemma SameElements<T>(s: seq<T>, t: seq<T>)
    requires multiset(s) == multiset(t)
    ensures forall x :: x in s <==> x in t
  {
    forall x
      ensures x in s <==> x in t
    {
      assert x in s <==> x in multiset(s);
      assert x in t <==> x in multiset(t);
    }
  }

  lemma RemoveOne<T>(s: seq<T>, t: seq<T>, i: nat)
    requires multiset(s) == multiset(t) && s != [] && i < |t| && t[i] == s[|s| - 1]
    ensures multiset(s[..|s| - 1]) == multiset(t[..i] + t[i + 1..])
  {
    assert s == s[..|s| - 1] + [s[|s| - 1]];
    assert t == t[..i] + [t[i]] + t[i + 1..];
    assert multiset(t) == multiset(t[..i]) + multiset{t[i]} + multiset(t[i + 1..]);
    assert multiset(t) - multiset{t[i]} == multiset(t[..i] + t[i + 1..]);
    assert multiset(s) - multiset{t[i]} == multiset(s[..|s| - 1]);
  }

  /** A reordering has the same keys, and repeats a key exactly when the original does. */
  lemma ReorderedKeys<T, K>(s: seq<T>, t: seq<T>, key: T -> K)
    requires multiset(s) == multiset(t)
    ensures |s| == |t| && KeySet(s, key) == KeySet(t, key)
    ensures DistinctKeys(s, key) <==> DistinctKeys(t, key)
    ensures forall x :: x in s <==> x in t
  {
    assert |multiset(s)| == |s| && |multiset(t)| == |t|;
    SameElements(s, t);
    KeySetSize(s, key);
    KeySetSize(t, key);
  }

  function KeysOf<T, K>(s: seq<T>, key: T -> K): seq<K> {
    if s == [] then [] else KeysOf(s[..|s| - 1], key) + [key(s[|s| - 1])]
  }

  lemma {:induction false} KeysOfConcat<T, K>(a: seq<T>, b: seq<T>, key: T -> K)
    ensures KeysOf(a + b, key) == KeysOf(a, key) + KeysOf(b, key)
  {
    if b == [] {
      assert a + b == a;
    } else {
      KeysOfConcat(a, b[..|b| - 1], key);
      assert (a + b)[..|a + b| - 1] == a + b[..|b| - 1];
    }
  }

  lemma KeysOfWithout<T, K>(left: seq<T>, x: T, right: seq<T>, key: T -> K)
    ensures multiset(KeysOf(left + [x] + right, key)) == multiset(KeysOf(left + right, key)) + multiset{key(x)}
  {
    KeysOfConcat(left, right, key);
    KeysOfConcat(left + [x], right, key);
    KeysOfConcat(left, [x], key);
  }

  lemma KeysOfPush<T, K>(front: seq<T>, x: T, key: T -> K)
    ensures multiset(KeysOf(front + [x], key)) == multiset(KeysOf(front, key)) + multiset{key(x)}
  {
    KeysOfConcat(front, [x], key);
  }

  lemma KeysOfReinserted<T, K>(front: seq<T>, x: T, left: seq<T>, right: seq<T>, key: T -> K)
    requires multiset(KeysOf(front, key)) == multiset(KeysOf(left + right, key))
    ensures multiset(KeysOf(front + [x], key)) == multiset(KeysOf(left + [x] + right, key))
  {
    KeysOfPush(front, x, key);
    KeysOfWithout(left, x, right, key);
  }

  /** The last row of a list, found in a reordering of it. */
  lemma PlaceOf<T>(s: seq<T>, t: seq<T>) returns (front: seq<T>, x: T, left: seq<T>, right: seq<T>)
    requires multiset(s) == multiset(t) && s != []
    ensures s == front + [x] && t == left + [x] + right
    ensures multiset(front) == multiset(left + right)
  {
    front, x := s[..|s| - 1], s[|s| - 1];
    assert x in multiset(t);
    var i :| 0 <= i < |t| && t[i] == x;
    left, right := t[..i], t[i + 1..];
    RemoveOne(s, t, i);
  }

  lemma {:induction false} KeysOfReordered<T, K>(s: seq<T>, t: seq<T>, key: T -> K)
    requires multiset(s) == multiset(t)
    ensures multiset(KeysOf(s, key)) == multiset(KeysOf(t, key))
    decreases |s|
  {
    if s == [] {
      assert |multiset(t)| == 0;
    } else {
      var front, x, left, right := PlaceOf(s, t);
      KeysOfReordered(front, left + right, key);
      KeysOfReinserted(front, x, left, right, key);
    }
  }

  ghost predicate Repeats<T, K>(s: seq<T>, key: T -> K, k: K) {
    exists i, j :: 0 <= i < j < |s| && key(s[i]) == k && key(s[j]) == k
  }

  lemma {:induction false} CountOfKey<T, K>(s: seq<T>, key: T -> K, k: K)
    ensures multiset(KeysOf(s, key))[k] >= 1 <==> HasKey(s, key, k)
    ensures multiset(KeysOf(s, key))[k] >= 2 <==> Repeats(s, key, k)
  {
    if s != [] {
      var front, last := s[..|s| - 1], s[|s| - 1];
      assert s == front + [last];
      CountOfKey(front, key, k);
      HasKeyInConcat(front, [last], key, k);
      assert HasKey([last], key, k) <==> key([last][0]) == k;
      RepeatsPush(front, last, key, k);
    }
  }

  lemma RepeatsPush<T, K>(front: seq<T>, last: T, key: T -> K, k: K)
    ensures Repeats(front + [last], key, k) <==> Repeats(front, key, k) || (HasKey(front, key, k) && key(last) == k)
  {
    var s := front + [last];
    assert s[|front|] == last;
    assert forall i :: 0 <= i < |front| ==> s[i] == front[i];
    if Repeats(front, key, k) {
      var i, j :| 0 <= i < j < |front| && key(front[i]) == k && key(front[j]) == k;
      assert key(s[i]) == k && key(s[j]) == k;
    } else if HasKey(front, key, k) && key(last) == k {
      var i :| 0 <= i < |front| && key(front[i]) == k;
      assert key(s[i]) == k && key(s[|front|]) == k;
    }
  }

  /** A reordering repeats the same keys. */
  lemma RepeatsOfReordered<T, K>(s: seq<T>, t: seq<T>, key: T -> K, k: K)
    requires multiset(s) == multiset(t)
    ensures Repeats(s, key, k) <==> Repeats(t, key, k)
  {
    KeysOfReordered(s, t, key);
    CountOfKey(s, key, k);
    CountOfKey(t, key, k);
  }
}
