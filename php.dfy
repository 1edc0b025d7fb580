/**
 * The few PHP language semantics the core relies on: string truthiness, `trim`,
 * `implode`, the array union operator `+` and ordered associative arrays.
 */
module Php {

  /** A string is truthy in PHP unless it is "" or "0"; every longer string (even "00") is truthy. */
  predicate Truthy(s: string)
    ensures |s| >= 2 ==> Truthy(s)
  {
    s != "" && s != "0"
  }

  ghost predicate NoDup<T>(s: seq<T>) {
    forall i, j :: 0 <= i < j < |s| ==> s[i] != s[j]
  }

  // ---------------------------------------------------------------------------
  // Array union on key lists
  // ---------------------------------------------------------------------------

  /**
   * The key order of the PHP union `$a + $b`: every key of `a` in its place,
   * then each key of `b` that `a` lacks, in `b`'s order. Left keys always win.
   */
  function KeyUnion<K(==,!new)>(a: seq<K>, b: seq<K>): (r: seq<K>)
    ensures |r| >= |a| && r[..|a|] == a
    ensures forall x :: x in r <==> x in a || x in b
    ensures NoDup(a) ==> NoDup(r)
    decreases |b|
  {
    if b == [] then a
    else if b[0] in a then KeyUnion(a, b[1..])
    else KeyUnion(a + [b[0]], b[1..])
  }

  /** When nothing repeats, the union is plain concatenation. */
  lemma {:induction false} KeyUnionDisjoint<K(!new)>(a: seq<K>, b: seq<K>)
    requires NoDup(a + b)
    ensures KeyUnion(a, b) == a + b
    decreases |b|
  {
    if b != [] {
      assert b[0] == (a + b)[|a|];
      assert b[0] !in a by {
        forall i | 0 <= i < |a| ensures a[i] != b[0] {
          assert a[i] == (a + b)[i];
        }
      }
      assert a + b == (a + [b[0]]) + b[1..];
      KeyUnionDisjoint(a + [b[0]], b[1..]);
    }
  }

  /** A union whose right operand only repeats keys of the left adds nothing. */
  lemma {:induction false} KeyUnionSubsumed<K(!new)>(a: seq<K>, b: seq<K>)
    requires forall x :: x in b ==> x in a
    ensures KeyUnion(a, b) == a
    decreases |b|
  {
    if b != [] {
      KeyUnionSubsumed(a, b[1..]);
    }
  }

  /**
   * Keys of `array_flip($list)`: the list values in order of first occurrence,
   * each once (a repeated value overwrites the entry but keeps its place).
   */
  function FlipKeys<K(==,!new)>(s: seq<K>): (r: seq<K>)
    ensures NoDup(r)
    ensures forall x :: x in r <==> x in s
    ensures |r| <= |s|
  {
    KeyUnionLength([], s);
    KeyUnion([], s)
  }

  lemma {:induction false} KeyUnionLength<K(!new)>(a: seq<K>, b: seq<K>)
    ensures |KeyUnion(a, b)| <= |a| + |b|
    decreases |b|
  {
    if b != [] {
      if b[0] in a {
        KeyUnionLength(a, b[1..]);
      } else {
        KeyUnionLength(a + [b[0]], b[1..]);
      }
    }
  }

  /** A list without repeated values flips to its own order. */
  lemma FlipKeysOfUnique<K(!new)>(s: seq<K>)
    requires NoDup(s)
    ensures FlipKeys(s) == s
  {
    assert [] + s == s;
    KeyUnionDisjoint([], s);
  }

  /**
   * PHP `+` on two lists (both keyed 0, 1, ...): the left list, extended by the
   * entries of the right one at indexes the left one does not have.
   */
  function ListUnion<T>(a: seq<T>, b: seq<T>): (r: seq<T>)
    ensures |r| == if |b| <= |a| then |a| else |b|
    ensures r[..|a|] == a
  {
    if |b| <= |a| then a else a + b[|a|..]
  }

  // ---------------------------------------------------------------------------
  // implode
  // ---------------------------------------------------------------------------

  /**
   * `implode($sep, $parts)`: every part, empty ones included, with `sep`
   * between neighbours; the result starts with the first part.
   */
  function Implode(sep: string, parts: seq<string>): (r: string)
    ensures parts == [] ==> r == ""
    ensures |parts| >= 1 ==> |r| >= |parts[0]| && r[..|parts[0]|] == parts[0]
  {
    if |parts| == 0 then ""
    else if |parts| == 1 then parts[0]
    else parts[0] + sep + Implode(sep, parts[1..])
  }

  function TotalLength(parts: seq<string>): nat
  {
    if parts == [] then 0 else |parts[0]| + TotalLength(parts[1..])
  }

  /** Nothing is filtered: the result has every character of every part plus one separator per gap. */
  lemma {:induction false} ImplodeLength(sep: string, parts: seq<string>)
    requires |parts| >= 1
    ensures |Implode(sep, parts)| == TotalLength(parts) + (|parts| - 1) * |sep|
  {
    if |parts| > 1 {
      ImplodeLength(sep, parts[1..]);
    }
  }

  /** `explode($c, $s)` for a one-character delimiter. */
  function Explode(c: char, s: string): (r: seq<string>)
    ensures |r| >= 1
    decreases |s|
  {
    if c !in s then [s]
    else
      var i := IndexOf(s, c);
      [s[..i]] + Explode(c, s[i + 1..])
  }

  function IndexOf(s: string, c: char): (i: nat)
    requires c in s
    ensures i < |s| && s[i] == c && c !in s[..i]
  {
    if s[0] == c then 0 else 1 + IndexOf(s[1..], c)
  }

  /**
   * Round trip: joining parts that do not contain the separator and splitting
   * again gives back every part, empty ones included.
   */
  lemma {:induction false} ExplodeImplode(c: char, parts: seq<string>)
    requires |parts| >= 1
    requires forall k :: 0 <= k < |parts| ==> c !in parts[k]
    ensures Explode(c, Implode([c], parts)) == parts
  {
    if |parts| > 1 {
      var s := Implode([c], parts);
      var p := parts[0];
      var rest := Implode([c], parts[1..]);
      assert s == p + [c] + rest;
      assert s[|p|] == c;
      assert c in s;
      var i := IndexOf(s, c);
      assert i == |p|;
      assert s[..i] == p;
      assert s[i + 1..] == rest;
      ExplodeImplode(c, parts[1..]);
    }
  }

  // ---------------------------------------------------------------------------
  // trim
  // ---------------------------------------------------------------------------

  /** The characters PHP's `trim` strips by default: space, tab, LF, CR, NUL and vertical tab. */
  predicate IsTrimChar(c: char) {
    c == ' ' || c == '\t' || c == '\n' || c == '\r' || c == '\0' || c == '\U{B}'
  }

  /** Every character of `s` from index `lo` up to, not including, `hi` is a trim character. */
  predicate TrimCharsIn(s: string, lo: nat, hi: nat)
    requires lo <= hi <= |s|
  {
    forall k :: lo <= k < hi ==> IsTrimChar(s[k])
  }

  /** The first index at or after `i` that does not hold a trim character, or |s|. */
  function SkipForward(s: string, i: nat): (n: nat)
    requires i <= |s|
    ensures i <= n <= |s| && TrimCharsIn(s, i, n)
    ensures n == |s| || !IsTrimChar(s[n])
    decreases |s| - i
  {
    if i < |s| && IsTrimChar(s[i]) then SkipForward(s, i + 1) else i
  }

  /** The smallest index `n >= lo` with only trim characters from `n` up to `j`. */
  function SkipBackward(s: string, lo: nat, j: nat): (n: nat)
    requires lo <= j <= |s|
    ensures lo <= n <= j && TrimCharsIn(s, n, j)
    ensures n == lo || !IsTrimChar(s[n - 1])
    decreases j
  {
    if lo < j && IsTrimChar(s[j - 1]) then SkipBackward(s, lo, j - 1) else j
  }

  /**
   * `trim($s)`: the middle part of `s` between the leading and the trailing
   * run of trim characters; it neither starts nor ends with one.
   */
  function Trim(s: string): (r: string)
    ensures var lo := SkipForward(s, 0);
      var hi := SkipBackward(s, lo, |s|);
      && r == s[lo..hi]
      && TrimCharsIn(s, 0, lo) && TrimCharsIn(s, hi, |s|)
      && (r == [] || (!IsTrimChar(r[0]) && !IsTrimChar(r[|r| - 1])))
  {
    var lo := SkipForward(s, 0);
    s[lo..SkipBackward(s, lo, |s|)]
  }

  /** Trimming twice is trimming once. */
  lemma TrimIdempotent(s: string)
    ensures Trim(Trim(s)) == Trim(s)
  {
    var r := Trim(s);
    assert SkipForward(r, 0) == 0;
    assert SkipBackward(r, 0, |r|) == |r|;
    assert r[0..|r|] == r;
  }

  /** A string that neither starts nor ends with a trim character is its own trim. */
  lemma TrimOfTrimmed(s: string)
    requires s == [] || (!IsTrimChar(s[0]) && !IsTrimChar(s[|s| - 1]))
    ensures Trim(s) == s
  {
    assert SkipForward(s, 0) == 0;
    assert SkipBackward(s, 0, |s|) == |s|;
    assert s[0..|s|] == s;
  }

  // ---------------------------------------------------------------------------
  // Ordered associative arrays
  // ---------------------------------------------------------------------------

  /** A PHP array with string keys: its keys in insertion order and its key-to-value mapping. */
  datatype Assoc<V> = Assoc(keys: seq<string>, values: map<string, V>)

  ghost predicate ValidAssoc<V>(a: Assoc<V>) {
    NoDup(a.keys) && forall k :: k in a.values <==> k in a.keys
  }

  function EmptyAssoc<V>(): (r: Assoc<V>)
    ensures ValidAssoc(r) && r.keys == []
  {
    Assoc([], map[])
  }

  /** `$a[$k] = $v`: an existing key keeps its place, a new one is appended. */
  function Put<V>(a: Assoc<V>, k: string, v: V): (r: Assoc<V>)
    requires ValidAssoc(a)
    ensures ValidAssoc(r)
    ensures r.values == a.values[k := v]
    ensures r.keys == if k in a.keys then a.keys else a.keys + [k]
  {
    var keys := if k in a.keys then a.keys else a.keys + [k];
    assert NoDup(keys);
    Assoc(keys, a.values[k := v])
  }

  /** `$a + $b`: the left operand's entries win; the right one only adds missing keys. */
  function AssocUnion<V>(a: Assoc<V>, b: Assoc<V>): (r: Assoc<V>)
    requires ValidAssoc(a) && ValidAssoc(b)
    ensures ValidAssoc(r)
    ensures r.keys == KeyUnion(a.keys, b.keys)
    ensures forall k :: k in a.values ==> k in r.values && r.values[k] == a.values[k]
    ensures forall k :: k in b.values && k !in a.values ==> k in r.values && r.values[k] == b.values[k]
  {
    Assoc(KeyUnion(a.keys, b.keys), b.values + a.values)
  }

  /** The keys of a list of key/value pairs, in order. */
  function KeysOf<V>(es: seq<(string, V)>): (r: seq<string>)
    ensures |r| == |es| && forall i :: 0 <= i < |es| ==> r[i] == es[i].0
  {
    if es == [] then [] else KeysOf(es[..|es| - 1]) + [es[|es| - 1].0]
  }

  /**
   * A `foreach` that performs `$a[$k] = $v` for each pair in turn: existing
   * keys keep their place and take the later value, new keys are appended.
   */
  function PutAll<V>(a: Assoc<V>, es: seq<(string, V)>): (r: Assoc<V>)
    requires ValidAssoc(a)
    ensures ValidAssoc(r)
    decreases |es|
  {
    if es == [] then a
    else
      var last := es[|es| - 1];
      Put(PutAll(a, es[..|es| - 1]), last.0, last.1)
  }

  /** The keys of `x + [k]` under the union. */
  lemma {:induction false} KeyUnionSnoc<K(!new)>(a: seq<K>, b: seq<K>, k: K)
    ensures KeyUnion(a, b + [k]) == if k in KeyUnion(a, b) then KeyUnion(a, b) else KeyUnion(a, b) + [k]
    decreases |b|
  {
    if b == [] {
      assert b + [k] == [k];
      assert [k][1..] == [];
    } else {
      assert (b + [k])[0] == b[0];
      assert (b + [k])[1..] == b[1..] + [k];
      if b[0] in a {
        KeyUnionSnoc(a, b[1..], k);
      } else {
        KeyUnionSnoc(a + [b[0]], b[1..], k);
      }
    }
  }

  /** The resulting key order is the PHP union of the old keys and the new ones. */
  lemma {:induction false} PutAllKeys<V>(a: Assoc<V>, es: seq<(string, V)>)
    requires ValidAssoc(a)
    ensures PutAll(a, es).keys == KeyUnion(a.keys, KeysOf(es))
    decreases |es|
  {
    if es != [] {
      var init := es[..|es| - 1];
      var k := es[|es| - 1].0;
      PutAllKeys(a, init);
      assert KeysOf(es) == KeysOf(init) + [k];
      KeyUnionSnoc(a.keys, KeysOf(init), k);
    }
  }

  /** A key that no pair names keeps its old entry, or stays absent. */
  lemma {:induction false} PutAllAbsent<V>(a: Assoc<V>, es: seq<(string, V)>, k: string)
    requires ValidAssoc(a)
    requires forall i :: 0 <= i < |es| ==> es[i].0 != k
    ensures k in PutAll(a, es).values <==> k in a.values
    ensures k in a.values ==> PutAll(a, es).values[k] == a.values[k]
    decreases |es|
  {
    if es != [] {
      PutAllAbsent(a, es[..|es| - 1], k);
    }
  }

  /** A key takes the value of the last pair that names it. */
  lemma {:induction false} PutAllLast<V>(a: Assoc<V>, es: seq<(string, V)>, i: nat)
    requires ValidAssoc(a) && i < |es|
    requires forall j :: i < j < |es| ==> es[j].0 != es[i].0
    ensures es[i].0 in PutAll(a, es).values && PutAll(a, es).values[es[i].0] == es[i].1
    decreases |es|
  {
    if i < |es| - 1 {
      PutAllLast(a, es[..|es| - 1], i);
    }
  }

  /** Two loops in a row are one loop over both lists. */
  lemma {:induction false} PutAllAppend<V>(a: Assoc<V>, es: seq<(string, V)>, fs: seq<(string, V)>)
    requires ValidAssoc(a)
    ensures PutAll(a, es + fs) == PutAll(PutAll(a, es), fs)
    decreases |fs|
  {
    if fs == [] {
      assert es + fs == es;
    } else {
      assert (es + fs)[..|es + fs| - 1] == es + fs[..|fs| - 1];
      PutAllAppend(a, es, fs[..|fs| - 1]);
    }
  }

  /** Every value a key ends up with was already there or came from one of the pairs. */
  lemma {:induction false} PutAllFrom<V>(a: Assoc<V>, es: seq<(string, V)>, k: string)
    requires ValidAssoc(a) && k in PutAll(a, es).values
    ensures (k in a.values && PutAll(a, es).values[k] == a.values[k]) ||
      exists i :: 0 <= i < |es| && es[i].0 == k && es[i].1 == PutAll(a, es).values[k]
    decreases |es|
  {
    if es != [] {
      var init := es[..|es| - 1];
      if es[|es| - 1].0 != k {
        PutAllFrom(a, init, k);
        if exists i :: 0 <= i < |init| && init[i].0 == k && init[i].1 == PutAll(a, init).values[k] {
          var i :| 0 <= i < |init| && init[i].0 == k && init[i].1 == PutAll(a, init).values[k];
          assert es[i] == init[i];
        }
      }
    }
  }

  // ---------------------------------------------------------------------------
  // Configuration values
  // ---------------------------------------------------------------------------

  /**
   * The PHP values that theme info files and plugin definitions hold: null,
   * scalars, an array as its list of key/value entries, and the object that
   * `t()` returns for a translatable string.
   */
  datatype Value =
    | Null
    | Bool(b: bool)
    | Int(i: int)
    | Str(s: string)
    | Arr(entries: seq<(string, Value)>)
    | Translated(source: Value)

  /** PHP falsiness: null, false, 0, "", "0" and the empty array; an object is never falsy. */
  predicate Falsy(v: Value)
    ensures Falsy(v) <==> v == Null || v == Bool(false) || v == Int(0) || v == Str("") || v == Str("0") || v == Arr([])
  {
    match v
    case Null => true
    case Bool(b) => !b
    case Int(i) => i == 0
    case Str(s) => !Truthy(s)
    case Arr(es) => es == []
    case Translated(_) => false
  }

  /** `isset($a[$k])`: the key is present and its value is not null. */
  predicate IsSet(a: Assoc<Value>, k: string) {
    k in a.values && a.values[k] != Null
  }

  /** The value an array holds under a key; null when it is absent or not an array. */
  function Get(v: Value, k: string): (r: Value)
    ensures r != Null ==> v.Arr? && (k, r) in v.entries
    ensures v.Arr? && (forall i :: 0 <= i < |v.entries| ==> v.entries[i].0 != k) ==> r == Null
  {
    if v.Arr? then EntryValue(v.entries, k) else Null
  }

  /** The value of the last entry with key `k`, or null. */
  function EntryValue(es: seq<(string, Value)>, k: string): (r: Value)
    ensures r != Null ==> (k, r) in es
    ensures (forall i :: 0 <= i < |es| ==> es[i].0 != k) ==> r == Null
    decreases |es|
  {
    if es == [] then Null
    else if es[|es| - 1].0 == k then es[|es| - 1].1
    else EntryValue(es[..|es| - 1], k)
  }

  /** `isset($v[$k])`. */
  predicate IsSetIn(v: Value, k: string) {
    Get(v, k) != Null
  }
}
