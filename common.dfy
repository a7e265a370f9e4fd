/** Definitions shared by every part of the model: optional values and results,
    calendar dates, JavaScript's notion of white space, and small searching and
    counting functions over sequences and maps. */
module Common {

  datatype Option<+T> = None | Some(value: T)

  datatype Result<+T, +E> = Ok(value: T) | Err(error: E)

  /** Money in integer cents; the source's floating-point amounts are not modelled. */
  type Cents = int

  /** A calendar day, as `getFullYear`/`getMonth`/`getDate` or SQL `DATE(...)` see it. */
  datatype Date = Date(year: int, month: int, day: int)

  /** A point in time: its calendar day and the second within that day. */
  datatype Instant = Instant(date: Date, secondOfDay: nat)

  function Max(a: int, b: int): (r: int)
    ensures r >= a && r >= b && (r == a || r == b)
  {
    if a >= b then a else b
  }

  /** The characters JavaScript's `\s` class and `String.prototype.trim` treat as white space
      (WhiteSpace and LineTerminator of the ECMAScript grammar). */
  predicate IsJsWhitespace(c: char) {
    || c == ' ' || c == '\t' || c == '\n' || c == '\U{000B}' || c == '\U{000C}' || c == '\r'
    || c == '\U{00A0}' || c == '\U{1680}' || ('\U{2000}' <= c <= '\U{200A}')
    || c == '\U{2028}' || c == '\U{2029}' || c == '\U{202F}' || c == '\U{205F}'
    || c == '\U{3000}' || c == '\U{FEFF}'
  }

  /** `s` consists of white space only (or is empty). */
  predicate IsBlank(s: string) {
    forall i :: 0 <= i < |s| ==> IsJsWhitespace(s[i])
  }

  /** `String.prototype.trimStart`. */
  function TrimStart(s: string): (r: string)
    ensures |r| <= |s| && r == s[|s| - |r|..]
    ensures r != [] ==> !IsJsWhitespace(r[0])
    ensures IsBlank(s[..|s| - |r|])
  {
    if s == [] || !IsJsWhitespace(s[0]) then s
    else
      var r := TrimStart(s[1..]);
      assert s[1..][|s| - 1 - |r|..] == s[|s| - |r|..];
      forall i | 0 < i < |s| - |r| ensures IsJsWhitespace(s[i]) {
        assert s[i] == s[1..][..|s| - 1 - |r|][i - 1];
      }
      r
  }

  /** `String.prototype.trimEnd`. */
  function TrimEnd(s: string): (r: string)
    ensures |r| <= |s| && r == s[..|r|]
    ensures r != [] ==> !IsJsWhitespace(r[|r| - 1])
    ensures IsBlank(s[|r|..])
  {
    if s == [] || !IsJsWhitespace(s[|s| - 1]) then s
    else
      var r := TrimEnd(s[..|s| - 1]);
      assert s[..|s| - 1][..|r|] == s[..|r|];
      assert s[|r|..] == s[..|s| - 1][|r|..] + [s[|s| - 1]];
      BlankConcat(s[..|s| - 1][|r|..], [s[|s| - 1]]);
      r
  }

  /** `String.prototype.trim`. */
  function Trim(s: string): (r: string)
    ensures |r| <= |s|
    ensures r != [] ==> !IsJsWhitespace(r[0]) && !IsJsWhitespace(r[|r| - 1])
  {
    TrimEnd(TrimStart(s))
  }

  /** `s.trim() === ''` holds exactly when `s` is made of white space only. */
  lemma TrimEmptyIffBlank(s: string)
    ensures Trim(s) == "" <==> IsBlank(s)
  {
    var t := TrimStart(s);
    var pre := s[..|s| - |t|];
    assert s == pre + t;
    if Trim(s) == "" {
      assert t[0..] == t;
      BlankConcat(pre, t);
    } else {
      var r := Trim(s);
      assert r == t[..|r|];
      assert r[0] == t[0] == s[|pre|];
      assert !IsJsWhitespace(s[|pre|]);
    }
  }

  lemma BlankConcat(a: string, b: string)
    requires IsBlank(a) && IsBlank(b)
    ensures IsBlank(a + b)
  {
    forall i | 0 <= i < |a + b| ensures IsJsWhitespace((a + b)[i]) {
      if i < |a| {
        assert (a + b)[i] == a[i];
      } else {
        assert (a + b)[i] == b[i - |a|];
      }
    }
  }

  /** The index of the first element satisfying `p`, as `Array.prototype.find`
      (and `findIndex`) search: from the front. */
  function FindFirst<T>(s: seq<T>, p: T -> bool): (r: Option<nat>)
    ensures r.Some? ==> r.value < |s| && p(s[r.value])
    ensures r.Some? ==> forall j :: 0 <= j < r.value ==> !p(s[j])
    ensures r.None? ==> forall j :: 0 <= j < |s| ==> !p(s[j])
  {
    if s == [] then None
    else if p(s[0]) then Some(0)
    else match FindFirst(s[1..], p)
      case None => None
      case Some(i) => Some(i + 1)
  }

  /** `FindFirst` is determined by its contract. */
  lemma FindFirstUnique<T>(s: seq<T>, p: T -> bool, r: Option<nat>)
    requires r.Some? ==> r.value < |s| && p(s[r.value]) && forall j :: 0 <= j < r.value ==> !p(s[j])
    requires r.None? ==> forall j :: 0 <= j < |s| ==> !p(s[j])
    ensures FindFirst(s, p) == r
  {
  }

  /** Two sequences on which `p` gives the same answers at every index have the same first match. */
  lemma FindFirstCongruent<T>(s: seq<T>, t: seq<T>, p: T -> bool)
    requires |s| == |t| && forall i :: 0 <= i < |s| ==> p(s[i]) == p(t[i])
    ensures FindFirst(s, p) == FindFirst(t, p)
  {
    FindFirstUnique(t, p, FindFirst(s, p));
  }

  lemma FindFirstAppend<T>(s: seq<T>, x: T, p: T -> bool)
    ensures FindFirst(s, p).Some? ==> FindFirst(s + [x], p) == FindFirst(s, p)
    ensures FindFirst(s, p).None? && p(x) ==> FindFirst(s + [x], p) == Some(|s|)
    ensures FindFirst(s, p).None? && !p(x) ==> FindFirst(s + [x], p) == None
  {
    var t := s + [x];
    assert forall i :: 0 <= i < |s| ==> t[i] == s[i];
    var f := FindFirst(s, p);
    if f.Some? {
      FindFirstUnique(t, p, f);
    } else if p(x) {
      FindFirstUnique(t, p, Some(|s|));
    } else {
      FindFirstUnique(t, p, None);
    }
  }

  /** Number of elements of `s` satisfying `p`, as `s.filter(p).length`. */
  function CountSeq<T>(s: seq<T>, p: T -> bool): (n: nat)
    ensures n <= |s|
    ensures n == 0 <==> forall i :: 0 <= i < |s| ==> !p(s[i])
  {
    if s == [] then 0 else (if p(s[0]) then 1 else 0) + CountSeq(s[1..], p)
  }

  /** Number of entries of `m` whose value satisfies `p`, as a `COUNT(*) ... WHERE`. */
  function CountMap<K, V>(m: map<K, V>, p: V -> bool): (n: nat)
    ensures n <= |m|
  {
    var keys := set k | k in m && p(m[k]);
    assert keys <= m.Keys;
    SubsetCardinality(keys, m.Keys);
    |keys|
  }

  lemma SubsetCardinality<K>(a: set<K>, b: set<K>)
    requires a <= b
    ensures |a| <= |b|
  {
    assert b == a + (b - a);
  }

  /** Adding an entry under a new key adds one to the count exactly when the new value qualifies. */
  lemma {:induction false} CountMapInsert<K, V>(m: map<K, V>, k: K, v: V, p: V -> bool)
    requires k !in m
    ensures CountMap(m[k := v], p) == CountMap(m, p) + (if p(v) then 1 else 0)
  {
    var before := set x | x in m && p(m[x]);
    var m2 := m[k := v];
    var after := set x | x in m2 && p(m2[x]);
    forall x | x != k ensures (x in after <==> x in before) {
      if x in m2 {
        assert m2[x] == m[x];
      }
    }
    assert k !in before;
    if p(v) {
      assert after == before + {k};
    } else {
      assert after == before;
    }
  }

  /** Replacing the value under an existing key changes the count by the change of that one entry. */
  lemma {:induction false} CountMapReplace<K, V>(m: map<K, V>, k: K, v: V, p: V -> bool)
    requires k in m
    ensures CountMap(m[k := v], p) + (if p(m[k]) then 1 else 0)
         == CountMap(m, p) + (if p(v) then 1 else 0)
  {
    var m2 := m[k := v];
    CountMapSplit(m, k, p);
    CountMapSplit(m2, k, p);
    assert (set x | x in m && x != k && p(m[x])) == (set x | x in m2 && x != k && p(m2[x]));
  }

  lemma CountMapSplit<K, V>(m: map<K, V>, k: K, p: V -> bool)
    requires k in m
    ensures CountMap(m, p) == |set x | x in m && x != k && p(m[x])| + (if p(m[k]) then 1 else 0)
  {
    var rest := set x | x in m && x != k && p(m[x]);
    var all := set x | x in m && p(m[x]);
    if p(m[k]) {
      assert all == rest + {k};
    } else {
      assert all == rest;
    }
  }

  /** `s` is an ordered selection of the elements of `t`. */
  predicate IsSubsequence<T(==)>(s: seq<T>, t: seq<T>)
    decreases |t|
  {
    if s == [] then true
    else if t == [] then false
    else (s[0] == t[0] && IsSubsequence(s[1..], t[1..])) || IsSubsequence(s, t[1..])
  }
}
