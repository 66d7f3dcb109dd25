/**
 * The PHP built-ins the Ghost Content API client uses to assemble the query
 * it sends: the boolean conversion of a string (behind `empty` and
 * `array_filter`), PHP 8's loose `==` between strings (behind `array_unique`
 * with `SORT_REGULAR`), `array_merge` with a one-entry string-keyed array,
 * and `array_unique`. A PHP array is the ordered sequence of its entries.
 */
module PhpArrays {

  /** A PHP array key: an integer or a string. */
  datatype Key = IntKey(i: int) | StrKey(s: string)

  /** An ordered PHP array whose values are strings. */
  type Entries = seq<(Key, string)>

  /** A PHP array never holds the same key twice. */
  ghost predicate DistinctKeys(a: Entries) {
    forall i, j :: 0 <= i < j < |a| ==> a[i].0 != a[j].0
  }

  /** `r` is `a` with some elements left out and the others kept in order. */
  ghost predicate IsSubseq<T>(r: seq<T>, a: seq<T>)
    decreases |a|
  {
    r == [] || (a != [] && ((r[0] == a[0] && IsSubseq(r[1..], a[1..])) || IsSubseq(r, a[1..])))
  }

  lemma {:induction false} SubseqMembers<T>(r: seq<T>, a: seq<T>)
    requires IsSubseq(r, a)
    ensures forall x :: x in r ==> x in a
    decreases |a|
  {
    if r != [] {
      if r[0] == a[0] && IsSubseq(r[1..], a[1..]) {
        SubseqMembers(r[1..], a[1..]);
        assert r == [r[0]] + r[1..];
        assert a == [a[0]] + a[1..];
      } else {
        SubseqMembers(r, a[1..]);
        assert a == [a[0]] + a[1..];
      }
    }
  }

  lemma {:induction false} SubseqTransitive<T>(r: seq<T>, s: seq<T>, a: seq<T>)
    requires IsSubseq(r, s) && IsSubseq(s, a)
    ensures IsSubseq(r, a)
    decreases |a|
  {
    if r != [] {
      if s[0] == a[0] && IsSubseq(s[1..], a[1..]) {
        if r[0] == s[0] && IsSubseq(r[1..], s[1..]) {
          SubseqTransitive(r[1..], s[1..], a[1..]);
        } else {
          SubseqTransitive(r, s[1..], a[1..]);
        }
      } else {
        SubseqTransitive(r, s, a[1..]);
      }
    }
  }

  lemma {:induction false} SubseqAppend<T>(r: seq<T>, a: seq<T>, x: T)
    requires IsSubseq(r, a)
    ensures IsSubseq(r + [x], a + [x])
    decreases |a|
  {
    if a == [] {
      assert r + [x] == [x] == a + [x];
      assert IsSubseq([x][1..], [x][1..]);
    } else if r == [] {
      SubseqAppend(r, a[1..], x);
      assert (a + [x])[1..] == a[1..] + [x];
    } else if r[0] == a[0] && IsSubseq(r[1..], a[1..]) {
      SubseqAppend(r[1..], a[1..], x);
      assert (r + [x])[1..] == r[1..] + [x];
      assert (a + [x])[1..] == a[1..] + [x];
    } else {
      SubseqAppend(r, a[1..], x);
      assert (a + [x])[1..] == a[1..] + [x];
    }
  }

  /** Leaving entries out of an array cannot make two keys collide. */
  lemma {:induction false} SubseqKeepsDistinctKeys(r: Entries, a: Entries)
    requires IsSubseq(r, a)
    ensures DistinctKeys(a) ==> DistinctKeys(r)
    decreases |a|
  {
    if r != [] && DistinctKeys(a) {
      if r[0] == a[0] && IsSubseq(r[1..], a[1..]) {
        SubseqKeepsDistinctKeys(r[1..], a[1..]);
        SubseqMembers(r[1..], a[1..]);
        forall j | 0 < j < |r| ensures r[0].0 != r[j].0 {
          assert r[j] == r[1..][j - 1];
          assert r[1..][j - 1] in r[1..];
          var k :| 0 <= k < |a[1..]| && a[1..][k] == r[j];
          assert a[k + 1] == r[j];
        }
      } else {
        SubseqKeepsDistinctKeys(r, a[1..]);
      }
    }
  }

  // ---------------------------------------------------------------------
  // Boolean conversion

  /** PHP's boolean conversion of a string: only "" and "0" are false. */
  predicate IsTrue(s: string) {
    s != "" && s != "0"
  }

  // ---------------------------------------------------------------------
  // Loose comparison of strings

  /** The characters PHP allows around a numeric string. */
  predicate IsSpace(c: char) {
    c == ' ' || c == '\t' || c == '\n' || c == '\r' || c == '\U{000B}' || c == '\U{000C}'
  }

  predicate IsDigit(c: char) {
    '0' <= c <= '9'
  }

  /** `s` without its leading whitespace. */
  function TrimStart(s: string): string {
    if s != [] && IsSpace(s[0]) then TrimStart(s[1..]) else s
  }

  /** `s` without its trailing whitespace. */
  function TrimEnd(s: string): string {
    if s != [] && IsSpace(s[|s| - 1]) then TrimEnd(s[..|s| - 1]) else s
  }

  predicate AllDigits(s: string) {
    s == [] || (AllDigits(s[..|s| - 1]) && IsDigit(s[|s| - 1]))
  }

  /** The value of a string of decimal digits. */
  function DigitsValue(s: string): nat
    requires AllDigits(s)
  {
    if s == [] then 0 else 10 * DigitsValue(s[..|s| - 1]) + (s[|s| - 1] as int - '0' as int)
  }

  /** `t` without one leading sign character. */
  function Unsigned(t: string): string {
    if |t| > 0 && (t[0] == '+' || t[0] == '-') then t[1..] else t
  }

  /** An integer numeral: digits, optionally signed, optionally surrounded by whitespace. */
  predicate IsIntegerNumeral(s: string) {
    var u := Unsigned(TrimEnd(TrimStart(s)));
    |u| > 0 && AllDigits(u)
  }

  /** What PHP compares when it compares a string loosely. */
  datatype Comparand = Number(n: int) | Text(s: string)

  /** The largest PHP integer on a 64-bit platform. */
  const LongMax: int := 0x7FFF_FFFF_FFFF_FFFF

  predicate InLongRange(n: int) {
    -LongMax - 1 <= n <= LongMax
  }

  /** An integer numeral within PHP's integer range compares by its value.
      Any other string compares by its characters. That includes an integer
      numeral beyond the range: PHP reads it as a float, and two such strings
      are equal only when they are the same string (equal floats from the same
      side send PHP back to comparing the bytes, while unequal floats are
      unequal). It also never equals an in-range numeral or a non-numeral. */
  function AsComparand(s: string): Comparand {
    var t := TrimEnd(TrimStart(s));
    var u := Unsigned(t);
    if |u| > 0 && AllDigits(u) then
      var n: int := DigitsValue(u);
      var value := if t[0] == '-' then -n else n;
      if InLongRange(value) then Number(value) else Text(s)
    else
      Text(s)
  }

  /** PHP 8's `$a == $b` for two strings. */
  predicate LooseEq(a: string, b: string) {
    AsComparand(a) == AsComparand(b)
  }

  /** Trimming the end leaves a prefix. */
  lemma {:induction false} TrimEndPrefix(s: string)
    ensures |TrimEnd(s)| <= |s| && TrimEnd(s) == s[..|TrimEnd(s)|]
    decreases |s|
  {
    if s != [] && IsSpace(s[|s| - 1]) {
      TrimEndPrefix(s[..|s| - 1]);
    }
  }

  /** A string that is not a numeral is loosely equal only to itself. */
  lemma TextComparesExactly(a: string, b: string)
    requires !IsIntegerNumeral(a)
    ensures LooseEq(a, b) <==> a == b
  {
  }

  lemma {:induction false} ZeroPrefixedDigits(d: string)
    requires AllDigits(d)
    ensures AllDigits("0" + d) && DigitsValue("0" + d) == DigitsValue(d)
    decreases |d|
  {
    if d != [] {
      var init := d[..|d| - 1];
      ZeroPrefixedDigits(init);
      assert ("0" + d)[..|"0" + d| - 1] == "0" + init;
      assert ("0" + d)[|"0" + d| - 1] == d[|d| - 1];
    }
  }

  /** A bare string of digits compares loosely by its value when that value is
      a PHP integer, and by its characters when it is not. */
  lemma DigitsCompareByValue(s: string)
    requires |s| > 0 && AllDigits(s)
    ensures AsComparand(s) == if DigitsValue(s) <= LongMax then Number(DigitsValue(s)) else Text(s)
  {
    DigitsAreNotSpaces(s, 0);
    DigitsAreNotSpaces(s, |s| - 1);
    assert TrimStart(s) == s;
    assert TrimEnd(s) == s;
    assert Unsigned(s) == s;
  }

  /** A leading zero does not change an integer numeral: "0123" == "123" in PHP. */
  lemma LeadingZeroIgnored(d: string)
    requires |d| > 0 && AllDigits(d) && DigitsValue(d) <= LongMax
    ensures LooseEq("0" + d, d) && "0" + d != d
  {
    ZeroPrefixedDigits(d);
    DigitsCompareByValue(d);
    DigitsCompareByValue("0" + d);
  }

  /** Beyond the integer range a leading zero does matter: "0" + d and d are
      different strings, so PHP finds them unequal. */
  lemma LeadingZeroKeptBeyondRange(d: string)
    requires |d| > 0 && AllDigits(d) && DigitsValue(d) > LongMax
    ensures !LooseEq("0" + d, d)
  {
    ZeroPrefixedDigits(d);
    DigitsCompareByValue(d);
    DigitsCompareByValue("0" + d);
    assert |"0" + d| != |d|;
  }

  lemma {:induction false} DigitsAreNotSpaces(d: string, i: nat)
    requires AllDigits(d) && i < |d|
    ensures IsDigit(d[i]) && !IsSpace(d[i])
    decreases |d|
  {
    if i < |d| - 1 {
      DigitsAreNotSpaces(d[..|d| - 1], i);
    }
  }

  /** A string that opens with a character no integer numeral can open with
      (not whitespace, a sign or a digit) compares by its characters. PHP also
      reads numerals that open with '.', such as ".5"; decimal numerals are not
      modelled and compare as text here. */
  lemma TextByFirstChar(s: string)
    requires |s| > 0 && !IsSpace(s[0]) && !IsDigit(s[0]) && s[0] != '+' && s[0] != '-'
    ensures !IsIntegerNumeral(s)
    ensures forall b :: LooseEq(s, b) <==> s == b
  {
    var t := TrimEnd(TrimStart(s));
    assert TrimStart(s) == s;
    TrimEndPrefix(s);
    if |t| > 0 {
      assert t[0] == s[0];
      assert Unsigned(t) == t;
      if AllDigits(t) {
        DigitsAreNotSpaces(t, 0);
      }
    }
  }

  /** The empty string is no numeral. */
  lemma EmptyIsText()
    ensures !IsIntegerNumeral("")
    ensures forall b :: LooseEq("", b) <==> b == ""
  {
  }

  // ---------------------------------------------------------------------
  // array_filter

  /** `array_filter($a)` without a callback: drops the entries whose value
      converts to false, keeping keys and order. */
  function Filter(a: Entries): (r: Entries)
    ensures IsSubseq(r, a)
    ensures forall e :: e in r <==> e in a && IsTrue(e.1)
  {
    if a == [] then []
    else
      assert a == [a[0]] + a[1..];
      var rest := Filter(a[1..]);
      if IsTrue(a[0].1) then
        assert ([a[0]] + rest)[1..] == rest;
        [a[0]] + rest
      else
        rest
  }

  /** Filtering works entry by entry, so it distributes over concatenation. */
  lemma {:induction false} FilterAppend(x: Entries, y: Entries)
    ensures Filter(x + y) == Filter(x) + Filter(y)
    decreases |x|
  {
    if x == [] {
      assert x + y == y;
    } else {
      FilterAppend(x[1..], y);
      assert (x + y)[0] == x[0];
      assert (x + y)[1..] == x[1..] + y;
      if IsTrue(x[0].1) {
        assert Filter(x + y) == [x[0]] + (Filter(x[1..]) + Filter(y));
      }
    }
  }

  /** A truthy entry lands in the filtered array right after the filtered
      entries that were ahead of it. */
  lemma FilterPosition(a: Entries, i: int)
    requires 0 <= i < |a| && IsTrue(a[i].1)
    ensures |Filter(a[..i])| < |Filter(a)|
    ensures Filter(a)[|Filter(a[..i])|] == a[i]
    ensures Filter(a)[..|Filter(a[..i])|] == Filter(a[..i])
  {
    var e := a[i];
    assert a == a[..i] + ([e] + a[i + 1..]);
    FilterAppend(a[..i], [e] + a[i + 1..]);
    FilterAppend([e], a[i + 1..]);
    assert Filter([e]) == [e] by {
      assert [e][1..] == [];
    }
  }

  // ---------------------------------------------------------------------
  // array_merge

  /** How many entries of `a` have an integer key. */
  function IntKeyCount(a: Entries): nat {
    if a == [] then 0 else IntKeyCount(a[..|a| - 1]) + (if a[|a| - 1].0.IntKey? then 1 else 0)
  }

  /** The first half of `array_merge`: integer keys are renumbered 0, 1, 2, …
      in order; string keys are kept. */
  function Renumber(a: Entries): (r: Entries)
    ensures |r| == |a|
  {
    if a == [] then []
    else
      var init, last := a[..|a| - 1], a[|a| - 1];
      Renumber(init) + [(if last.0.IntKey? then IntKey(IntKeyCount(init)) else last.0, last.1)]
  }

  /** Each slot keeps its value; a string key stays, an integer key becomes
      the number of integer keys before it. */
  lemma {:induction false} RenumberSlots(a: Entries)
    ensures forall i :: 0 <= i < |a| ==>
              Renumber(a)[i] == (if a[i].0.IntKey? then IntKey(IntKeyCount(a[..i])) else a[i].0, a[i].1)
    decreases |a|
  {
    if a != [] {
      var init := a[..|a| - 1];
      RenumberSlots(init);
      forall i | 0 <= i < |a|
        ensures Renumber(a)[i] == (if a[i].0.IntKey? then IntKey(IntKeyCount(a[..i])) else a[i].0, a[i].1)
      {
        if i < |a| - 1 {
          assert a[..i] == init[..i];
          assert a[i] == init[i];
          assert Renumber(a)[i] == Renumber(init)[i];
        } else {
          assert a[..i] == init;
        }
      }
    }
  }

  lemma {:induction false} IntKeyCountGrows(a: Entries, i: nat, j: nat)
    requires i < j <= |a|
    ensures IntKeyCount(a[..j]) >= IntKeyCount(a[..i]) + (if a[i].0.IntKey? then 1 else 0)
    decreases j
  {
    assert a[..j][..j - 1] == a[..j - 1];
    if j > i + 1 {
      IntKeyCountGrows(a, i, j - 1);
    }
  }

  /** Renumbering keeps keys distinct: integer keys come out strictly increasing. */
  lemma RenumberKeepsDistinctKeys(a: Entries)
    ensures forall i, j :: 0 <= i < j < |a| && a[i].0.IntKey? && a[j].0.IntKey? ==>
              Renumber(a)[i].0.IntKey? && Renumber(a)[j].0.IntKey? && Renumber(a)[i].0.i < Renumber(a)[j].0.i
    ensures DistinctKeys(a) ==> DistinctKeys(Renumber(a))
  {
    RenumberSlots(a);
    forall i, j | 0 <= i < j < |a| && a[i].0.IntKey? ensures IntKeyCount(a[..i]) < IntKeyCount(a[..j]) {
      IntKeyCountGrows(a, i, j);
    }
  }

  /** The position of key `k` in `a`, or `|a|` when `a` does not hold it. */
  function KeyIndex(a: Entries, k: Key): (p: nat)
    ensures p <= |a|
    ensures p < |a| ==> a[p].0 == k
    ensures forall j :: 0 <= j < p ==> a[j].0 != k
  {
    if a == [] then 0 else if a[0].0 == k then 0 else 1 + KeyIndex(a[1..], k)
  }

  /** `$a[$k] = $v`: an entry with key `k` keeps its place and takes the new
      value; without one, the entry is appended. */
  function Store(a: Entries, k: Key, v: string): Entries {
    var p := KeyIndex(a, k);
    if p < |a| then a[p := (k, v)] else a + [(k, v)]
  }

  /** Storing under `k` fills the slot of `k` (or one past the end) and
      leaves every other slot as it was. */
  lemma StoreSlots(a: Entries, k: Key, v: string)
    ensures |Store(a, k, v)| == if KeyIndex(a, k) < |a| then |a| else |a| + 1
    ensures KeyIndex(a, k) < |Store(a, k, v)| && Store(a, k, v)[KeyIndex(a, k)] == (k, v)
    ensures forall i :: 0 <= i < |Store(a, k, v)| && i != KeyIndex(a, k) ==> i < |a| && Store(a, k, v)[i] == a[i]
  {
  }

  lemma StoreKeepsDistinctKeys(a: Entries, k: Key, v: string)
    ensures DistinctKeys(a) ==> DistinctKeys(Store(a, k, v))
  {
  }

  /** `array_merge($a, [$name => $v])`: `a` renumbered, then `name` set to `v`. */
  function MergeOne(a: Entries, name: string, v: string): Entries {
    Store(Renumber(a), StrKey(name), v)
  }

  /** Renumbering leaves every string key where it was. */
  lemma RenumberKeepsKeyIndex(a: Entries, name: string)
    ensures KeyIndex(Renumber(a), StrKey(name)) == KeyIndex(a, StrKey(name))
  {
    var n := Renumber(a);
    RenumberSlots(a);
    var p, q := KeyIndex(n, StrKey(name)), KeyIndex(a, StrKey(name));
    assert q < |a| ==> n[q].0 == StrKey(name);
    assert p < |n| ==> a[p].0 == StrKey(name);
  }

  /** Where `array_merge($a, [$name => $v])` puts things: the `name` entry in
      the slot of the caller's `name` entry (appended when there is none),
      and each other slot filled from the renumbered `a`. */
  lemma MergeOneSlots(a: Entries, name: string, v: string)
    ensures |MergeOne(a, name, v)| == if KeyIndex(a, StrKey(name)) < |a| then |a| else |a| + 1
    ensures KeyIndex(a, StrKey(name)) < |MergeOne(a, name, v)|
    ensures MergeOne(a, name, v)[KeyIndex(a, StrKey(name))] == (StrKey(name), v)
    ensures forall i :: 0 <= i < |MergeOne(a, name, v)| && i != KeyIndex(a, StrKey(name)) ==>
              i < |a| && MergeOne(a, name, v)[i] == Renumber(a)[i]
    ensures DistinctKeys(a) ==> DistinctKeys(MergeOne(a, name, v))
  {
    var n := Renumber(a);
    RenumberKeepsKeyIndex(a, name);
    RenumberKeepsDistinctKeys(a);
    StoreSlots(n, StrKey(name), v);
    StoreKeepsDistinctKeys(n, StrKey(name), v);
  }

  /** What `array_merge($a, [$name => $v])` holds: the `name` entry with value
      `v`, every other string-keyed entry of `a`, and the values of the
      integer-keyed ones under new keys; keys stay distinct. */
  lemma MergeOneShape(a: Entries, name: string, v: string)
    ensures DistinctKeys(a) ==> DistinctKeys(MergeOne(a, name, v))
    ensures KeyIndex(a, StrKey(name)) < |MergeOne(a, name, v)|
    ensures MergeOne(a, name, v)[KeyIndex(a, StrKey(name))] == (StrKey(name), v)
    ensures forall j :: 0 <= j < KeyIndex(a, StrKey(name)) ==> MergeOne(a, name, v)[j].1 == a[j].1
    ensures forall e :: e in MergeOne(a, name, v) ==>
              || e == (StrKey(name), v)
              || (e.0.StrKey? && e in a)
              || (e.0.IntKey? && exists j :: 0 <= j < |a| && a[j].0.IntKey? && a[j].1 == e.1)
    ensures forall e :: e in a && e.0.StrKey? && e.0 != StrKey(name) ==> e in MergeOne(a, name, v)
    ensures forall i :: 0 <= i < |a| && a[i].0.IntKey? ==>
              MergeOne(a, name, v)[i] == (IntKey(IntKeyCount(a[..i])), a[i].1)
  {
    var n := Renumber(a);
    var k := StrKey(name);
    var p := KeyIndex(a, k);
    var r := MergeOne(a, name, v);
    MergeOneSlots(a, name, v);
    RenumberSlots(a);
    forall j | 0 <= j < p ensures r[j].1 == a[j].1 {
      assert r[j] == n[j];
    }
    forall e | e in r
      ensures || e == (k, v)
              || (e.0.StrKey? && e in a)
              || (e.0.IntKey? && exists j :: 0 <= j < |a| && a[j].0.IntKey? && a[j].1 == e.1)
    {
      var i :| 0 <= i < |r| && r[i] == e;
      if i != p {
        assert e == n[i];
        if a[i].0.StrKey? {
          assert e == a[i];
        } else {
          assert e.0.IntKey? && a[i].1 == e.1;
        }
      }
    }
    forall e | e in a && e.0.StrKey? && e.0 != k ensures e in r {
      var i :| 0 <= i < |a| && a[i] == e;
      assert i != p;
      assert r[i] == n[i] == a[i];
    }
    forall i | 0 <= i < |a| && a[i].0.IntKey? ensures r[i] == (IntKey(IntKeyCount(a[..i])), a[i].1) {
      assert p < |a| ==> a[p].0 == k;
      assert r[i] == n[i];
    }
  }

  // ---------------------------------------------------------------------
  // array_unique

  /** Some string of `seen` is loosely equal to `v`. */
  predicate HasLoose(seen: seq<string>, v: string) {
    exists j :: 0 <= j < |seen| && LooseEq(seen[j], v)
  }

  lemma HasLooseAppend(seen: seq<string>, x: string)
    ensures forall v :: HasLoose(seen + [x], v) <==> HasLoose(seen, v) || LooseEq(x, v)
  {
    forall v ensures HasLoose(seen + [x], v) <==> HasLoose(seen, v) || LooseEq(x, v) {
      if HasLoose(seen, v) {
        var j :| 0 <= j < |seen| && LooseEq(seen[j], v);
        assert (seen + [x])[j] == seen[j];
      }
      if LooseEq(x, v) {
        assert (seen + [x])[|seen|] == x;
      }
    }
  }

  /** `array_unique` over the rest of an array once the values `seen` have
      gone by: an entry is kept when its value is loosely equal to none of
      the values before it. */
  function UniqueAfter(a: Entries, seen: seq<string>): Entries
    decreases |a|
  {
    if a == [] then []
    else if HasLoose(seen, a[0].1) then UniqueAfter(a[1..], seen + [a[0].1])
    else [a[0]] + UniqueAfter(a[1..], seen + [a[0].1])
  }

  /** `array_unique($a, SORT_REGULAR)`: of the entries whose values are loosely
      equal, only the first is kept; order and keys are preserved. PHP finds
      the equal values by sorting, so this is its result when its ordering is
      total on the values present (all integer numerals, or none). */
  function Unique(a: Entries): Entries {
    UniqueAfter(a, [])
  }

  lemma {:induction false} UniqueAfterShape(a: Entries, seen: seq<string>)
    ensures IsSubseq(UniqueAfter(a, seen), a)
    ensures forall i :: 0 <= i < |UniqueAfter(a, seen)| ==> !HasLoose(seen, UniqueAfter(a, seen)[i].1)
    ensures forall i, j :: 0 <= i < j < |UniqueAfter(a, seen)| ==>
              !LooseEq(UniqueAfter(a, seen)[i].1, UniqueAfter(a, seen)[j].1)
    decreases |a|
  {
    if a != [] {
      var x, tail := a[0], a[1..];
      var seen' := seen + [x.1];
      var rest := UniqueAfter(tail, seen');
      UniqueAfterShape(tail, seen');
      HasLooseAppend(seen, x.1);
      if !HasLoose(seen, x.1) {
        var r := [x] + rest;
        assert UniqueAfter(a, seen) == r;
        assert r[1..] == rest;
        forall i | 0 <= i < |r| ensures !HasLoose(seen, r[i].1) {
          if i > 0 {
            assert r[i] == rest[i - 1];
          }
        }
        forall i, j | 0 <= i < j < |r| ensures !LooseEq(r[i].1, r[j].1) {
          assert r[j] == rest[j - 1];
          if i > 0 {
            assert r[i] == rest[i - 1];
          } else {
            assert !HasLoose(seen', rest[j - 1].1);
          }
        }
      }
    }
  }

  /** The properties `array_unique` promises: the result is the input with
      entries left out, no two of its values are loosely equal, and keys that
      were distinct stay distinct. */
  lemma UniqueShape(a: Entries)
    ensures IsSubseq(Unique(a), a)
    ensures forall i, j :: 0 <= i < j < |Unique(a)| ==> !LooseEq(Unique(a)[i].1, Unique(a)[j].1)
    ensures DistinctKeys(a) ==> DistinctKeys(Unique(a))
  {
    UniqueAfterShape(a, []);
    SubseqKeepsDistinctKeys(Unique(a), a);
  }

  /** Some entry before position `i` holds a value loosely equal to that at `i`. */
  ghost predicate EarlierLoose(a: Entries, i: int)
    requires 0 <= i < |a|
  {
    exists j :: 0 <= j < i && LooseEq(a[j].1, a[i].1)
  }

  /** Looking back from position `i`, past the head or within the tail. */
  lemma EarlierLooseTail(a: Entries, i: int)
    requires 0 < i < |a|
    ensures EarlierLoose(a, i) <==> LooseEq(a[0].1, a[i].1) || EarlierLoose(a[1..], i - 1)
  {
    var tail := a[1..];
    if EarlierLoose(a, i) {
      var j :| 0 <= j < i && LooseEq(a[j].1, a[i].1);
      if j > 0 {
        assert tail[j - 1] == a[j];
      }
    }
    if EarlierLoose(tail, i - 1) {
      var j :| 0 <= j < i - 1 && LooseEq(tail[j].1, tail[i - 1].1);
      assert a[j + 1] == tail[j];
    }
  }

  lemma {:induction false} UniqueAfterKeeps(a: Entries, seen: seq<string>)
    ensures forall i :: 0 <= i < |a| && !HasLoose(seen, a[i].1) && !EarlierLoose(a, i) ==> a[i] in UniqueAfter(a, seen)
    decreases |a|
  {
    if a != [] {
      var x, tail := a[0], a[1..];
      var seen' := seen + [x.1];
      var rest := UniqueAfter(tail, seen');
      UniqueAfterKeeps(tail, seen');
      HasLooseAppend(seen, x.1);
      assert forall e :: e in rest ==> e in UniqueAfter(a, seen);
      forall i | 0 <= i < |a| && !HasLoose(seen, a[i].1) && !EarlierLoose(a, i)
        ensures a[i] in UniqueAfter(a, seen)
      {
        if i > 0 {
          assert tail[i - 1] == a[i];
          assert !LooseEq(a[0].1, a[i].1);
          assert !HasLoose(seen', tail[i - 1].1);
          EarlierLooseTail(a, i);
          assert tail[i - 1] in rest;
        }
      }
    }
  }

  lemma {:induction false} UniqueAfterOnlyFirsts(a: Entries, seen: seq<string>)
    ensures forall e :: e in UniqueAfter(a, seen) ==>
              exists i :: 0 <= i < |a| && a[i] == e && !HasLoose(seen, a[i].1) && !EarlierLoose(a, i)
    decreases |a|
  {
    if a != [] {
      var x, tail := a[0], a[1..];
      var seen' := seen + [x.1];
      var rest := UniqueAfter(tail, seen');
      UniqueAfterOnlyFirsts(tail, seen');
      assert forall e :: e in UniqueAfter(a, seen) ==> e in rest || (e == x && !HasLoose(seen, x.1));
      forall e | e in UniqueAfter(a, seen)
        ensures exists i :: 0 <= i < |a| && a[i] == e && !HasLoose(seen, a[i].1) && !EarlierLoose(a, i)
      {
        if e in rest {
          var k :| 0 <= k < |tail| && tail[k] == e && !HasLoose(seen', tail[k].1) && !EarlierLoose(tail, k);
          assert a[k + 1] == e;
          HasLooseAppend(seen, x.1);
          EarlierLooseTail(a, k + 1);
        } else {
          assert e == x && !HasLoose(seen, x.1);
          assert a[0] == e && !EarlierLoose(a, 0);
        }
      }
    }
  }

  /** An entry survives `array_unique` exactly when no earlier entry holds a
      loosely equal value. */
  lemma UniqueKeepsFirstOfEachValue(a: Entries)
    requires DistinctKeys(a)
    ensures forall i :: 0 <= i < |a| ==> (a[i] in Unique(a) <==> !EarlierLoose(a, i))
  {
    UniqueAfterKeeps(a, []);
    UniqueAfterOnlyFirsts(a, []);
    assert forall v :: !HasLoose([], v);
    forall i | 0 <= i < |a| && a[i] in Unique(a) ensures !EarlierLoose(a, i) {
      var k :| 0 <= k < |a| && a[k] == a[i] && !HasLoose([], a[k].1) && !EarlierLoose(a, k);
      assert k == i;
    }
  }

  /** After `array_unique(array_merge($a, [$name => $v]))`, the `name` entry is
      present exactly when no entry ahead of its slot holds a value loosely
      equal to `v`. */
  lemma MergedEntrySurvival(a: Entries, name: string, v: string)
    requires DistinctKeys(a)
    ensures (StrKey(name), v) in Unique(MergeOne(a, name, v)) <==>
            forall j :: 0 <= j < KeyIndex(a, StrKey(name)) ==> !LooseEq(a[j].1, v)
  {
    var m := MergeOne(a, name, v);
    var p := KeyIndex(a, StrKey(name));
    MergeOneShape(a, name, v);
    assert m[p] in Unique(m) <==> !EarlierLoose(m, p) by {
      UniqueKeepsFirstOfEachValue(m);
    }
  }

  /** The `name` entry never keeps a value other than `v`. */
  lemma MergedEntryValue(a: Entries, name: string, v: string)
    requires DistinctKeys(a)
    ensures forall w :: (StrKey(name), w) in Unique(MergeOne(a, name, v)) ==> w == v
  {
    var m := MergeOne(a, name, v);
    var p := KeyIndex(a, StrKey(name));
    MergeOneSlots(a, name, v);
    assert forall e :: e in Unique(m) ==> e in m by {
      UniqueShape(m);
      SubseqMembers(Unique(m), m);
    }
    forall w | (StrKey(name), w) in Unique(m) ensures w == v {
      var i :| 0 <= i < |m| && m[i] == (StrKey(name), w);
      assert i == p;
    }
  }

  /** The value `array_merge($a, [$name => $v])` leaves in the slot of `e`. */
  function MergedValue(e: (Key, string), name: string, v: string): string {
    if e.0 == StrKey(name) then v else e.1
  }

  /** After `array_unique(array_merge($a, [$name => $v]))`, a string-keyed
      entry of `a` other than `name` is present exactly when no entry ahead of
      it holds, once merged, a loosely equal value. */
  lemma MergedStringEntrySurvival(a: Entries, name: string, v: string, i: int)
    requires DistinctKeys(a) && 0 <= i < |a| && a[i].0.StrKey? && a[i].0 != StrKey(name)
    ensures a[i] in Unique(MergeOne(a, name, v)) <==>
            forall j :: 0 <= j < i ==> !LooseEq(MergedValue(a[j], name, v), a[i].1)
  {
    var m := MergeOne(a, name, v);
    var p := KeyIndex(a, StrKey(name));
    MergeOneSlots(a, name, v);
    RenumberSlots(a);
    assert m[i] == a[i];
    forall j | 0 <= j < i ensures m[j].1 == MergedValue(a[j], name, v) {
      if j != p {
        assert m[j] == Renumber(a)[j];
      }
    }
    assert m[i] in Unique(m) <==> !EarlierLoose(m, i) by {
      UniqueKeepsFirstOfEachValue(m);
    }
  }
}
