/**
 Grouping keys of pushed metrics: parsing `job/<job>{/<label>/<value>}` into a label map and
 encoding a label map as one string with decimal length prefixes.

 `Canonical` is the encoding; `DecodeKey` reads it back, so two label maps have the same key
 exactly when they are equal, whatever bytes their names and values hold.
 */
module GroupKey {
  import opened Types
  import opened Ordering

  type Labels = map<string, string>

  // Decimal lengths

  predicate IsDigit(c: char) {
    '0' <= c <= '9'
  }

  function Digit(d: nat): char
    requires d < 10
  {
    '0' + d as char
  }

  function DigitValue(c: char): nat
    requires IsDigit(c)
  {
    (c - '0') as nat
  }

  function Decimal(n: nat): string {
    if n < 10 then [Digit(n)] else Decimal(n / 10) + [Digit(n % 10)]
  }

  predicate AllDigits(s: string) {
    forall i :: 0 <= i < |s| ==> IsDigit(s[i])
  }

  function Value(s: string): nat
    requires AllDigits(s)
  {
    if s == "" then 0 else Value(s[..|s| - 1]) * 10 + DigitValue(s[|s| - 1])
  }

  lemma {:induction false} DecimalValue(n: nat)
    ensures Decimal(n) != "" && AllDigits(Decimal(n)) && Value(Decimal(n)) == n
  {
    if n < 10 {
      assert Decimal(n)[..0] == "";
    } else {
      var head := Decimal(n / 10);
      DecimalValue(n / 10);
      assert Decimal(n)[..|head|] == head;
    }
  }

  // Fields: a length, a colon, that many bytes

  function Field(x: string): string {
    Decimal(|x|) + (":" + x)
  }

  function DigitPrefix(s: string): (k: nat)
    ensures k <= |s| && AllDigits(s[..k])
    ensures k < |s| ==> !IsDigit(s[k])
  {
    if s == "" || !IsDigit(s[0]) then 0
    else
      var k := DigitPrefix(s[1..]);
      assert s[..k + 1] == [s[0]] + s[1..][..k];
      k + 1
  }

  function TakeField(s: string): (r: Option<(string, string)>)
    ensures r.Some? ==> |r.value.1| < |s|
  {
    var k := DigitPrefix(s);
    if k == 0 || k == |s| || s[k] != ':' then None
    else
      var n, rest := Value(s[..k]), s[k + 1..];
      if n > |rest| then None else Some((rest[..n], rest[n..]))
  }

  lemma {:induction false} DigitPrefixUnique(digits: string, rest: string)
    requires AllDigits(digits) && rest != "" && !IsDigit(rest[0])
    ensures DigitPrefix(digits + rest) == |digits|
    decreases |digits|
  {
    if digits == "" {
      assert digits + rest == rest;
    } else {
      assert (digits + rest)[1..] == digits[1..] + rest;
      DigitPrefixUnique(digits[1..], rest);
    }
  }

  lemma Slices(a: string, b: string)
    ensures (a + b)[..|a|] == a && (a + b)[|a|..] == b
  {
  }

  lemma TakeFieldOfField(x: string, rest: string)
    ensures TakeField(Field(x) + rest) == Some((x, rest))
  {
    var digits, tail := Decimal(|x|), ":" + (x + rest);
    DecimalValue(|x|);
    assert Field(x) + rest == digits + tail;
    DigitPrefixUnique(digits, tail);
    Slices(digits, tail);
    assert (digits + tail)[|digits| + 1..] == tail[1..] == x + rest;
    Slices(x, rest);
  }

  // Lists of pairs

  function Record(p: (string, string)): string {
    Field(p.0) + ("=" + (Field(p.1) + ";"))
  }

  function EncodePairs(ps: seq<(string, string)>): string {
    if ps == [] then "" else Record(ps[0]) + EncodePairs(ps[1..])
  }

  function TakeRecord(s: string): (r: Option<((string, string), string)>)
    ensures r.Some? ==> |r.value.1| < |s|
  {
    var name := TakeField(s);
    if name.None? || name.value.1 == "" || name.value.1[0] != '=' then None
    else
      var value := TakeField(name.value.1[1..]);
      if value.None? || value.value.1 == "" || value.value.1[0] != ';' then None
      else Some(((name.value.0, value.value.0), value.value.1[1..]))
  }

  function DecodePairs(s: string): Option<seq<(string, string)>>
    decreases |s|
  {
    if s == "" then Some([])
    else
      var first := TakeRecord(s);
      if first.None? then None
      else
        var rest := DecodePairs(first.value.1);
        if rest.None? then None else Some([first.value.0] + rest.value)
  }

  lemma TakeRecordOfRecord(p: (string, string), rest: string)
    ensures TakeRecord(Record(p) + rest) == Some((p, rest))
  {
    var afterValue := ";" + rest;
    var afterName := "=" + (Field(p.1) + afterValue);
    assert Record(p) + rest == Field(p.0) + afterName;
    TakeFieldOfField(p.0, afterName);
    assert afterName[1..] == Field(p.1) + afterValue;
    TakeFieldOfField(p.1, afterValue);
    assert afterValue[1..] == rest;
  }

  lemma {:induction false} DecodeEncode(ps: seq<(string, string)>)
    ensures DecodePairs(EncodePairs(ps)) == Some(ps)
    decreases |ps|
  {
    if ps != [] {
      DecodeEncode(ps[1..]);
      TakeRecordOfRecord(ps[0], EncodePairs(ps[1..]));
      DecodeStep(ps[0], EncodePairs(ps[1..]), ps[1..]);
      assert ps == [ps[0]] + ps[1..];
    }
  }

  lemma DecodeStep(p: (string, string), s: string, ps: seq<(string, string)>)
    requires TakeRecord(Record(p) + s) == Some((p, s)) && DecodePairs(s) == Some(ps)
    ensures DecodePairs(Record(p) + s) == Some([p] + ps)
  {
    assert Record(p)[|Record(p)| - 1] == ';';
    assert Record(p) + s != "";
  }

  // Keys of label maps

  ghost function SortedPairs(labels: Labels): (ps: seq<(string, string)>)
    ensures |ps| == |SortedNames(labels.Keys)|
  {
    var ns := SortedNames(labels.Keys);
    seq(|ns|, i requires 0 <= i < |ns| => (ns[i], labels[ns[i]]))
  }

  /** The group key of a label map. */
  ghost function Canonical(labels: Labels): string {
    EncodePairs(SortedPairs(labels))
  }

  function ToMap(ps: seq<(string, string)>): Labels {
    if ps == [] then map[] else ToMap(ps[..|ps| - 1])[ps[|ps| - 1].0 := ps[|ps| - 1].1]
  }

  function DecodeKey(key: string): Option<Labels> {
    var ps := DecodePairs(key);
    if ps.None? then None else Some(ToMap(ps.value))
  }

  lemma {:induction false} ToMapOf(ps: seq<(string, string)>, labels: Labels)
    requires forall i :: 0 <= i < |ps| ==> ps[i].0 in labels && ps[i].1 == labels[ps[i].0]
    ensures forall n :: n in ToMap(ps) <==> exists i :: 0 <= i < |ps| && ps[i].0 == n
    ensures forall n :: n in ToMap(ps) ==> n in labels && ToMap(ps)[n] == labels[n]
    decreases |ps|
  {
    if ps != [] {
      var last := |ps| - 1;
      ToMapOf(ps[..last], labels);
      forall n
        ensures n in ToMap(ps) <==> exists i :: 0 <= i < |ps| && ps[i].0 == n
      {
        if i :| 0 <= i < last && ps[i].0 == n {
          assert ps[..last][i].0 == n;
        }
        if n == ps[last].0 { assert ps[last].0 == n; }
      }
    }
  }

  lemma SortedPairsMap(labels: Labels)
    ensures ToMap(SortedPairs(labels)) == labels
  {
    var ns, ps := SortedNames(labels.Keys), SortedPairs(labels);
    forall i | 0 <= i < |ps|
      ensures ps[i].0 in labels && ps[i].1 == labels[ps[i].0]
    {
      assert ns[i] in ns;
    }
    ToMapOf(ps, labels);
    forall n | n in labels
      ensures n in ToMap(ps)
    {
      assert n in ns;
      var i :| 0 <= i < |ns| && ns[i] == n;
      assert ps[i].0 == n;
    }
  }

  /** Decoding a key gives back the label map. */
  lemma DecodeCanonical(labels: Labels)
    ensures DecodeKey(Canonical(labels)) == Some(labels)
  {
    DecodeEncode(SortedPairs(labels));
    SortedPairsMap(labels);
  }

  /** Two label maps have the same key exactly when they are equal. */
  lemma CanonicalInjective(a: Labels, b: Labels)
    ensures Canonical(a) == Canonical(b) <==> a == b
  {
    DecodeCanonical(a);
    DecodeCanonical(b);
  }

  /** The key is built from the names in whatever order the map yields them. */
  method CanonicalGroupKey(labels: Labels) returns (key: string)
    ensures key == Canonical(labels)
  {
    var names: seq<string> := [];
    var todo := labels.Keys;
    while todo != {}
      invariant todo <= labels.Keys
      invariant DistinctKeys(names, Id)
      invariant forall n :: n in names <==> n in labels.Keys && n !in todo
      decreases |todo|
    {
      var n :| n in todo;
      names := names + [n];
      todo := todo - {n};
    }
    SortedNamesOf(names, labels.Keys);
    names := SortBy(names, Id);
    key := "";
    for i := 0 to |names|
      invariant key == EncodePairs(SortedPairs(labels)[..i])
    {
      assert names[i] in names;
      NextRecord(labels, i);
      key := key + Record((names[i], labels[names[i]]));
    }
    assert SortedPairs(labels)[..|names|] == SortedPairs(labels);
  }

  lemma SortedNamesOf(names: seq<string>, keys: set<string>)
    requires DistinctKeys(names, Id) && forall n :: n in names <==> n in keys
    ensures SortBy(names, Id) == SortedNames(keys)
  {
    SortByCorrect(names, Id);
    SortedUnique(SortBy(names, Id), SortedNames(keys), Id);
  }

  lemma NextRecord(labels: Labels, i: nat)
    requires i < |SortedPairs(labels)|
    ensures var n := SortedNames(labels.Keys)[i];
            && n in labels
            && EncodePairs(SortedPairs(labels)[..i + 1]) ==
               EncodePairs(SortedPairs(labels)[..i]) + Record((n, labels[n]))
  {
    var ns, ps := SortedNames(labels.Keys), SortedPairs(labels);
    assert ns[i] in ns;
    assert ps[..i + 1] == ps[..i] + [ps[i]];
    EncodeSnoc(ps[..i], ps[i]);
  }

  lemma {:induction false} EncodeSnoc(ps: seq<(string, string)>, p: (string, string))
    ensures EncodePairs(ps + [p]) == EncodePairs(ps) + Record(p)
    decreases |ps|
  {
    if ps == [] {
      assert [p][1..] == [];
      assert [] + [p] == [p];
      assert Record(p) + "" == "" + Record(p);
    } else {
      assert (ps + [p])[1..] == ps[1..] + [p];
      EncodeSnoc(ps[1..], p);
      Assoc(Record(ps[0]), EncodePairs(ps[1..]), Record(p));
    }
  }

  lemma Assoc(a: string, b: string, c: string)
    ensures a + (b + c) == a + b + c
  {
  }
}
