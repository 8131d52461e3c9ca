/** Values shared by every module: optional values, results, and the part of Go's
    string and sort libraries that the modelled code calls. */
module Outcomes {

  /** A Go pointer or a map lookup that may find nothing. */
  datatype Option<+T> = None | Some(value: T)

  /** A Go `(value, error)` pair. */
  datatype Result<+T> = Ok(value: T) | Err(error: string) {
    predicate IsFailure() { Err? }

    function PropagateFailure<U>(): Result<U>
      requires Err?
    {
      Err(error)
    }

    function Extract(): T
      requires Ok?
    {
      value
    }
  }

  /** The values of a sequence of results, or the first error: a loop that returns on error. */
  function Collect<T>(rs: seq<Result<T>>): Result<seq<T>>
  {
    if rs == [] then Ok([])
    else
      var head :- rs[0];
      var rest :- Collect(rs[1..]);
      Ok([head] + rest)
  }

  /** Which statements of a transaction the database refuses, numbered from 0; the commit comes last. */
  type Faults = nat -> bool

  ghost predicate NoFault(faults: Faults, from: nat, to: nat)
  {
    forall k :: from <= k < to ==> !faults(k)
  }

  function Flatten<T>(ss: seq<seq<T>>): seq<T>
  {
    if ss == [] then [] else Flatten(ss[..|ss| - 1]) + ss[|ss| - 1]
  }

  lemma {:induction false} FlattenSnoc<T>(ss: seq<seq<T>>, s: seq<T>)
    ensures Flatten(ss + [s]) == Flatten(ss) + s
  {
    assert (ss + [s])[..|ss|] == ss;
  }

  lemma {:induction false} CollectOk<T>(rs: seq<Result<T>>)
    ensures Collect(rs).Ok? <==> forall i :: 0 <= i < |rs| ==> rs[i].Ok?
    ensures Collect(rs).Ok? ==> |Collect(rs).value| == |rs|
    ensures Collect(rs).Ok? ==> forall i :: 0 <= i < |rs| ==> Collect(rs).value[i] == rs[i].value
  {
    if rs != [] {
      CollectOk(rs[1..]);
      assert forall i :: 0 < i < |rs| ==> rs[i] == rs[1..][i - 1];
    }
  }

  /** One loop step: the values so far are extended, or the loop ends with the new error. */
  lemma {:induction false} CollectStep<T>(rs: seq<Result<T>>, k: nat)
    requires k < |rs| && Collect(rs[..k]).Ok?
    ensures rs[k].Ok? ==> Collect(rs[..k + 1]) == Ok(Collect(rs[..k]).value + [rs[k].value])
    ensures rs[k].Err? ==> Collect(rs) == Err(rs[k].error)
  {
    if k == 0 {
      assert rs[..1][1..] == rs[..0] == [];
      if rs[0].Ok? {
        assert [rs[0].value] + Collect(rs[..0]).value == Collect(rs[..0]).value + [rs[0].value];
      }
    } else {
      assert rs[..k][1..] == rs[1..][..k - 1] && rs[..k + 1][1..] == rs[1..][..k];
      CollectStep(rs[1..], k - 1);
      if rs[k].Ok? {
        var front := Collect(rs[1..][..k - 1]).value;
        assert [rs[0].value] + (front + [rs[k].value]) == ([rs[0].value] + front) + [rs[k].value];
      }
    }
  }
}

/** Go strings are byte sequences. Every char stands for one byte. */
module GoStrings {

  predicate IsSpace(c: char)
  {
    c == ' ' || c == '\t' || c == '\n' || c == '\r' || c == '\U{000B}' || c == '\U{000C}'
  }

  /** The string consists of white space only. */
  predicate Blank(s: string)
  {
    forall i :: 0 <= i < |s| ==> IsSpace(s[i])
  }

  function TrimLeft(s: string): string
  {
    if s != [] && IsSpace(s[0]) then TrimLeft(s[1..]) else s
  }

  function TrimRight(s: string): string
  {
    if s != [] && IsSpace(s[|s| - 1]) then TrimRight(s[..|s| - 1]) else s
  }

  function TrimSpace(s: string): string
  {
    TrimRight(TrimLeft(s))
  }

  predicate Contains(s: string, c: char)
  {
    exists i :: 0 <= i < |s| && s[i] == c
  }

  function ToLowerChar(c: char): char
  {
    if 'A' <= c <= 'Z' then (c as int + 32) as char else c
  }

  function ToLower(s: string): string
  {
    seq(|s|, i requires 0 <= i < |s| => ToLowerChar(s[i]))
  }

  predicate HasPrefix(s: string, prefix: string)
  {
    prefix <= s
  }

  /** strings.Join with a one-byte separator, folded so that the last part is peeled first. */
  function Join(parts: seq<string>, sep: char): string
  {
    if |parts| == 0 then ""
    else if |parts| == 1 then parts[0]
    else Join(parts[..|parts| - 1], sep) + [sep] + parts[|parts| - 1]
  }

  /** Position of the last occurrence of c, or -1. */
  function LastIndex(s: string, c: char): (k: int)
    ensures -1 <= k < |s|
    ensures k >= 0 ==> s[k] == c
    ensures forall i :: k < i < |s| ==> s[i] != c
  {
    if s == [] then -1
    else if s[|s| - 1] == c then |s| - 1
    else LastIndex(s[..|s| - 1], c)
  }

  /** strings.Split on a one-byte separator. */
  function Split(s: string, sep: char): (parts: seq<string>)
    ensures |parts| > 0
  {
    var k := LastIndex(s, sep);
    if k < 0 then [s] else Split(s[..k], sep) + [s[k + 1..]]
  }

  lemma {:induction false} TrimLeftShape(s: string)
    ensures |TrimLeft(s)| <= |s| && TrimLeft(s) == s[|s| - |TrimLeft(s)|..]
    ensures Blank(s[..|s| - |TrimLeft(s)|])
    ensures TrimLeft(s) != [] ==> !IsSpace(TrimLeft(s)[0])
  {
    if s != [] && IsSpace(s[0]) {
      TrimLeftShape(s[1..]);
      var k := |s| - |TrimLeft(s)|;
      assert s[..k] == [s[0]] + s[1..][..k - 1];
    }
  }

  lemma {:induction false} TrimRightShape(s: string)
    ensures TrimRight(s) <= s
    ensures Blank(s[|TrimRight(s)|..])
    ensures TrimRight(s) != [] ==> !IsSpace(TrimRight(s)[|TrimRight(s)| - 1])
  {
    if s != [] && IsSpace(s[|s| - 1]) {
      TrimRightShape(s[..|s| - 1]);
      var k := |TrimRight(s)|;
      assert s[k..] == s[..|s| - 1][k..] + [s[|s| - 1]];
    }
  }

  /** Trimming leaves the empty string exactly for blank strings. */
  lemma TrimSpaceEmpty(s: string)
    ensures TrimSpace(s) == "" <==> Blank(s)
  {
    TrimLeftShape(s);
    TrimRightShape(TrimLeft(s));
    var l := TrimLeft(s);
    if l != [] {
      assert s[|s| - |l|] == l[0];
      assert l[0..] == l;
    } else {
      assert s[..|s|] == s;
    }
  }

  /** A string is its own trimming exactly when neither end is white space. */
  lemma TrimSpaceFixed(s: string)
    ensures TrimSpace(s) == s <==> s == [] || (!IsSpace(s[0]) && !IsSpace(s[|s| - 1]))
    ensures TrimSpace(s) != s ==> |TrimSpace(s)| < |s|
  {
    if s != [] {
      if IsSpace(s[0]) {
        TrimLeftShape(s[1..]);
        TrimRightShape(TrimLeft(s));
        assert |TrimSpace(s)| < |s|;
      } else if IsSpace(s[|s| - 1]) {
        assert TrimLeft(s) == s;
        TrimRightShape(s[..|s| - 1]);
        assert |TrimSpace(s)| < |s|;
      }
    }
  }

  lemma TrimSpaceIdempotent(s: string)
    ensures TrimSpace(TrimSpace(s)) == TrimSpace(s)
  {
    TrimLeftShape(s);
    TrimRightShape(TrimLeft(s));
    TrimSpaceFixed(TrimSpace(s));
  }

  lemma {:induction false} JoinSnoc(parts: seq<string>, last: string, sep: char)
    requires |parts| > 0
    ensures Join(parts + [last], sep) == Join(parts, sep) + [sep] + last
  {
    assert (parts + [last])[..|parts|] == parts;
  }

  /** Split inverts Join on parts that do not contain the separator. */
  lemma {:induction false} SplitJoin(parts: seq<string>, sep: char)
    requires |parts| > 0
    requires forall i :: 0 <= i < |parts| ==> !Contains(parts[i], sep)
    ensures Split(Join(parts, sep), sep) == parts
  {
    if |parts| > 1 {
      var front, last := parts[..|parts| - 1], parts[|parts| - 1];
      SplitSnoc(Join(front, sep), last, sep);
      SplitJoin(front, sep);
    }
  }

  /** Join inverts Split, and no part contains the separator. */
  lemma {:induction false} JoinSplit(s: string, sep: char)
    ensures Join(Split(s, sep), sep) == s
    ensures forall i :: 0 <= i < |Split(s, sep)| ==> !Contains(Split(s, sep)[i], sep)
    decreases |s|
  {
    var k := LastIndex(s, sep);
    if k >= 0 {
      JoinSplit(s[..k], sep);
      JoinSnoc(Split(s[..k], sep), s[k + 1..], sep);
      assert s == s[..k] + [sep] + s[k + 1..];
    }
  }

  /** A separator-free tail after the last separator is the last part. */
  lemma {:induction false} SplitSnoc(s: string, last: string, sep: char)
    requires !Contains(last, sep)
    ensures Split(s + [sep] + last, sep) == Split(s, sep) + [last]
  {
    var t := s + [sep] + last;
    var k := LastIndex(t, sep);
    assert t[|s|] == sep;
    assert forall i :: |s| < i < |t| ==> t[i] == last[i - |s| - 1];
    assert k == |s|;
    assert t[..k] == s && t[k + 1..] == last;
  }
}

/** Decimal rendering of integers, as strconv.Itoa and fmt's %d print them. */
module Decimal {

  function DigitChar(d: int): char
    requires 0 <= d < 10
  {
    ('0' as int + d) as char
  }

  function NatDigits(n: nat): (s: string)
    ensures |s| > 0
    ensures forall i :: 0 <= i < |s| ==> '0' <= s[i] <= '9'
  {
    if n < 10 then [DigitChar(n)] else NatDigits(n / 10) + [DigitChar(n % 10)]
  }

  function Itoa(n: int): (s: string)
    ensures |s| > 0
    ensures forall i :: 0 <= i < |s| ==> s[i] == '-' || '0' <= s[i] <= '9'
  {
    if n < 0 then "-" + NatDigits(-n) else NatDigits(n)
  }

  function NatValue(s: string): int
  {
    if s == [] then 0 else NatValue(s[..|s| - 1]) * 10 + (s[|s| - 1] as int - '0' as int)
  }

  lemma {:induction false} NatRoundTrip(n: nat)
    ensures NatValue(NatDigits(n)) == n
  {
    if n < 10 {
      assert NatDigits(n)[..0] == [];
    } else {
      NatRoundTrip(n / 10);
      assert NatDigits(n)[..|NatDigits(n)| - 1] == NatDigits(n / 10);
    }
  }

  lemma SignOf(a: int)
    ensures Itoa(a)[0] == '-' <==> a < 0
  {
  }

  /** Different integers print differently. */
  lemma ItoaInjective(a: int, b: int)
    requires Itoa(a) == Itoa(b)
    ensures a == b
  {
    if a < 0 && b < 0 {
      assert ("-" + NatDigits(-a))[1..] == NatDigits(-a);
      assert ("-" + NatDigits(-b))[1..] == NatDigits(-b);
    }
    SignOf(a);
    SignOf(b);
    NatRoundTrip(if a < 0 then -a else a);
    NatRoundTrip(if b < 0 then -b else b);
  }
}

/** Sorting with a caller-supplied order, standing for Go's slices.Sort and slices.SortFunc. */
module Sorting {

  ghost predicate TotalPreorder<T(!new)>(le: (T, T) -> bool)
  {
    && (forall a, b :: le(a, b) || le(b, a))
    && (forall a, b, c :: le(a, b) && le(b, c) ==> le(a, c))
  }

  ghost predicate Ordered<T>(le: (T, T) -> bool, s: seq<T>)
  {
    forall i, j :: 0 <= i < j < |s| ==> le(s[i], s[j])
  }

  /** Strictly increasing: ordered, with no two elements equal in the order. */
  ghost predicate Strict<T>(le: (T, T) -> bool, s: seq<T>)
  {
    forall i, j :: 0 <= i < j < |s| ==> le(s[i], s[j]) && !le(s[j], s[i])
  }

  /** No two positions hold elements that compare equal. */
  ghost predicate DistinctKeys<T>(le: (T, T) -> bool, s: seq<T>)
  {
    forall i, j :: 0 <= i < j < |s| ==> !(le(s[i], s[j]) && le(s[j], s[i]))
  }

  function Insert<T>(le: (T, T) -> bool, x: T, s: seq<T>): seq<T>
  {
    if s == [] || le(x, s[0]) then [x] + s else [s[0]] + Insert(le, x, s[1..])
  }

  function Sort<T>(le: (T, T) -> bool, s: seq<T>): seq<T>
  {
    if s == [] then [] else Insert(le, s[0], Sort(le, s[1..]))
  }

  lemma {:induction false} InsertElements<T>(le: (T, T) -> bool, x: T, s: seq<T>)
    ensures multiset(Insert(le, x, s)) == multiset{x} + multiset(s)
    ensures |Insert(le, x, s)| == |s| + 1
    ensures forall y :: y in Insert(le, x, s) <==> y == x || y in s
  {
    if s == [] || le(x, s[0]) {
    } else {
      InsertElements(le, x, s[1..]);
      assert s == [s[0]] + s[1..];
    }
  }

  lemma {:induction false} InsertOrdered<T(!new)>(le: (T, T) -> bool, x: T, s: seq<T>)
    requires TotalPreorder(le) && Ordered(le, s)
    ensures Ordered(le, Insert(le, x, s))
  {
    if s == [] || le(x, s[0]) {
    } else {
      InsertOrdered(le, x, s[1..]);
      InsertElements(le, x, s[1..]);
      var r := Insert(le, x, s[1..]);
      forall j | 0 <= j < |r|
        ensures le(s[0], r[j])
      {
        assert r[j] in r;
      }
    }
  }

  /** Sort permutes its argument. */
  lemma {:induction false} SortPermutes<T>(le: (T, T) -> bool, s: seq<T>)
    ensures multiset(Sort(le, s)) == multiset(s)
    ensures |Sort(le, s)| == |s|
    ensures forall x :: x in Sort(le, s) <==> x in s
  {
    if s != [] {
      SortPermutes(le, s[1..]);
      InsertElements(le, s[0], Sort(le, s[1..]));
      assert s == [s[0]] + s[1..];
    }
  }

  lemma {:induction false} SortOrdered<T(!new)>(le: (T, T) -> bool, s: seq<T>)
    requires TotalPreorder(le)
    ensures Ordered(le, Sort(le, s))
  {
    if s != [] {
      SortOrdered(le, s[1..]);
      InsertOrdered(le, s[0], Sort(le, s[1..]));
    }
  }

  lemma {:induction false} InsertDistinct<T(!new)>(le: (T, T) -> bool, x: T, s: seq<T>)
    requires DistinctKeys(le, s)
    requires forall y :: y in s ==> !(le(x, y) && le(y, x))
    ensures DistinctKeys(le, Insert(le, x, s))
  {
    if s == [] || le(x, s[0]) {
    } else {
      InsertDistinct(le, x, s[1..]);
      InsertElements(le, x, s[1..]);
      var r := Insert(le, x, s[1..]);
      forall j | 0 <= j < |r|
        ensures !(le(s[0], r[j]) && le(r[j], s[0]))
      {
        assert r[j] in r;
        if r[j] != x {
          assert r[j] in s[1..];
          var k :| 0 <= k < |s[1..]| && s[1..][k] == r[j];
          assert s[k + 1] == r[j];
        }
      }
    }
  }

  /** Sorting a sequence with distinct keys makes it strictly increasing. */
  lemma {:induction false} SortStrict<T(!new)>(le: (T, T) -> bool, s: seq<T>)
    requires TotalPreorder(le) && DistinctKeys(le, s)
    ensures Strict(le, Sort(le, s))
  {
    SortOrdered(le, s);
    SortDistinct(le, s);
  }

  lemma {:induction false} SortDistinct<T(!new)>(le: (T, T) -> bool, s: seq<T>)
    requires DistinctKeys(le, s)
    ensures DistinctKeys(le, Sort(le, s))
  {
    if s != [] {
      SortDistinct(le, s[1..]);
      SortPermutes(le, s[1..]);
      forall y | y in Sort(le, s[1..])
        ensures !(le(s[0], y) && le(y, s[0]))
      {
        var k :| 0 <= k < |s[1..]| && s[1..][k] == y;
        assert s[k + 1] == y;
      }
      InsertDistinct(le, s[0], Sort(le, s[1..]));
    }
  }

  /** A strictly increasing sequence is determined by its set of elements. */
  lemma {:induction false} StrictUnique<T(!new)>(le: (T, T) -> bool, a: seq<T>, b: seq<T>)
    requires Strict(le, a) && Strict(le, b)
    requires forall x :: x in a <==> x in b
    ensures a == b
  {
    assert a != [] ==> a[0] in b;
    assert b != [] ==> b[0] in a;
    if a != [] && b != [] {
      assert a[0] == b[0];
      forall x
        ensures x in a[1..] <==> x in b[1..]
      {
        if x in a[1..] {
          var k :| 0 <= k < |a[1..]| && a[1..][k] == x;
          assert a[k + 1] == x && x in b && x != b[0];
        }
        if x in b[1..] {
          var k :| 0 <= k < |b[1..]| && b[1..][k] == x;
          assert b[k + 1] == x && x in a && x != a[0];
        }
      }
      StrictUnique(le, a[1..], b[1..]);
    }
  }

  /** Inputs with the same elements and distinct keys sort to the same sequence. */
  lemma {:induction false} SortCanonical<T(!new)>(le: (T, T) -> bool, a: seq<T>, b: seq<T>)
    requires TotalPreorder(le) && DistinctKeys(le, a) && DistinctKeys(le, b)
    requires forall x :: x in a <==> x in b
    ensures Sort(le, a) == Sort(le, b)
  {
    SortStrict(le, a);
    SortStrict(le, b);
    SortPermutes(le, a);
    SortPermutes(le, b);
    StrictUnique(le, Sort(le, a), Sort(le, b));
  }

  /** Sorting a strictly increasing sequence changes nothing. */
  lemma {:induction false} SortFixed<T(!new)>(le: (T, T) -> bool, s: seq<T>)
    requires TotalPreorder(le) && Strict(le, s)
    ensures Sort(le, s) == s
  {
    SortStrict(le, s);
    SortPermutes(le, s);
    StrictUnique(le, Sort(le, s), s);
  }
}

/** Go's byte-wise string order and sorted lists of map keys. */
module StringOrder {
  import opened Sorting

  predicate LexLe(a: string, b: string)
  {
    a == [] || (b != [] && (a[0] < b[0] || (a[0] == b[0] && LexLe(a[1..], b[1..]))))
  }

  lemma {:induction false} LexTotal(a: string, b: string)
    ensures LexLe(a, b) || LexLe(b, a)
  {
    if a != [] && b != [] {
      LexTotal(a[1..], b[1..]);
    }
  }

  lemma {:induction false} LexAntisymmetric(a: string, b: string)
    requires LexLe(a, b) && LexLe(b, a)
    ensures a == b
  {
    if a != [] && b != [] {
      LexAntisymmetric(a[1..], b[1..]);
      assert a == [a[0]] + a[1..] && b == [b[0]] + b[1..];
    }
  }

  lemma {:induction false} LexTransitive(a: string, b: string, c: string)
    requires LexLe(a, b) && LexLe(b, c)
    ensures LexLe(a, c)
  {
    if a != [] && a[0] == b[0] == c[0] {
      LexTransitive(a[1..], b[1..], c[1..]);
    }
  }

  lemma LexPreorder()
    ensures TotalPreorder(LexLe)
  {
    forall a, b
      ensures LexLe(a, b) || LexLe(b, a)
    {
      LexTotal(a, b);
    }
    forall a, b, c | LexLe(a, b) && LexLe(b, c)
      ensures LexLe(a, c)
    {
      LexTransitive(a, b, c);
    }
  }

  /** Listing a Go map's keys in some order; the order does not survive sorting. */
  ghost function Listed(keys: set<string>): (s: seq<string>)
    ensures forall x :: x in s <==> x in keys
    ensures forall i, j :: 0 <= i < j < |s| ==> s[i] != s[j]
  {
    if keys == {} then []
    else
      var k :| k in keys;
      var rest := Listed(keys - {k});
      [k] + rest
  }

  ghost function SortedKeys(keys: set<string>): seq<string>
  {
    Sort(LexLe, Listed(keys))
  }

  lemma DistinctStrings(s: seq<string>)
    requires forall i, j :: 0 <= i < j < |s| ==> s[i] != s[j]
    ensures DistinctKeys(LexLe, s)
  {
    forall i, j | 0 <= i < j < |s|
      ensures !(LexLe(s[i], s[j]) && LexLe(s[j], s[i]))
    {
      if LexLe(s[i], s[j]) && LexLe(s[j], s[i]) {
        LexAntisymmetric(s[i], s[j]);
      }
    }
  }

  lemma SortedKeysStrict(keys: set<string>)
    ensures Strict(LexLe, SortedKeys(keys))
    ensures forall x :: x in SortedKeys(keys) <==> x in keys
  {
    LexPreorder();
    DistinctStrings(Listed(keys));
    SortStrict(LexLe, Listed(keys));
    SortPermutes(LexLe, Listed(keys));
  }

  /** Any duplicate-free listing of the keys sorts to the same list. */
  lemma {:induction false} SortListing(s: seq<string>, keys: set<string>)
    requires forall i, j :: 0 <= i < j < |s| ==> s[i] != s[j]
    requires forall x :: x in s <==> x in keys
    ensures Sort(LexLe, s) == SortedKeys(keys)
  {
    LexPreorder();
    DistinctStrings(s);
    DistinctStrings(Listed(keys));
    SortCanonical(LexLe, s, Listed(keys));
  }

  /** The values of a map in the order of their keys. */
  ghost function InKeyOrder<V>(m: map<string, V>): seq<V>
  {
    SortedKeysStrict(m.Keys);
    var ks := SortedKeys(m.Keys);
    seq(|ks|, i requires 0 <= i < |ks| => assert ks[i] in ks; m[ks[i]])
  }
}

/** Merging maps from paths over pairwise disjoint sets of paths. */
module DisjointMaps {

  function MergeMaps<V>(ms: seq<map<string, V>>): map<string, V>
  {
    if ms == [] then map[] else MergeMaps(ms[..|ms| - 1]) + ms[|ms| - 1]
  }

  ghost predicate Disjoint<V>(ms: seq<map<string, V>>)
  {
    forall i, j :: 0 <= i < j < |ms| ==> ms[i].Keys !! ms[j].Keys
  }

  /** Every path of a merged map comes from one of the maps. */
  lemma {:induction false} Owner<V>(ms: seq<map<string, V>>, p: string) returns (i: nat)
    requires p in MergeMaps(ms)
    ensures i < |ms| && p in ms[i]
  {
    if p in ms[|ms| - 1] {
      i := |ms| - 1;
    } else {
      i := Owner(ms[..|ms| - 1], p);
    }
  }

  /** Merging disjoint maps keeps every record. */
  lemma {:induction false} Owned<V>(ms: seq<map<string, V>>, i: nat, p: string)
    requires Disjoint(ms) && i < |ms| && p in ms[i]
    ensures p in MergeMaps(ms) && MergeMaps(ms)[p] == ms[i][p]
  {
    if i < |ms| - 1 {
      Owned(ms[..|ms| - 1], i, p);
      assert p !in ms[|ms| - 1];
    }
  }

  lemma {:induction false} SameKeysMerged<V>(a: seq<map<string, V>>, b: seq<map<string, V>>)
    requires |a| == |b| && forall i :: 0 <= i < |a| ==> a[i].Keys == b[i].Keys
    ensures MergeMaps(a).Keys == MergeMaps(b).Keys
  {
    if a != [] {
      SameKeysMerged(a[..|a| - 1], b[..|b| - 1]);
    }
  }

  lemma FrontIsDisjoint<V>(ms: seq<map<string, V>>)
    requires Disjoint(ms) && ms != []
    ensures Disjoint(ms[..|ms| - 1])
    ensures MergeMaps(ms[..|ms| - 1]).Keys !! ms[|ms| - 1].Keys
  {
    var front := MergeMaps(ms[..|ms| - 1]);
    forall p | p in front
      ensures p !in ms[|ms| - 1]
    {
      var i := Owner(ms[..|ms| - 1], p);
    }
  }
}
