/**
  The audio format ranking of AudioQualitySelector.tsx:
  `[...formats].sort((a, b) => (b.filesize || 0) - (a.filesize || 0))`.

  The comparator orders by effective size, largest first; `Array.prototype.sort`
  is stable (ECMA-262, 2019 edition onward), so formats of equal effective size
  keep their input order. `Rank` is a stable insertion sort with that ordering;
  `RankUnique` shows that every stable descending sort gives the same sequence,
  so `Rank` is the order the component shows. Sequences are values, so sorting a
  copy leaves the caller's `formats` as they were.
*/
module AudioRanking {
  import opened Wrappers

  /** An audio encoding as the selector receives it; `filesize` may be absent or `null`. */
  datatype AudioFormat = AudioFormat(formatId: string, ext: string, filesize: Option<int>, formatNote: string, abr: int)

  /** `format.filesize || 0`: a missing, `null` or zero size counts as 0. */
  function EffectiveSize(f: AudioFormat): int {
    match f.filesize
    case None => 0
    case Some(n) => n
  }

  /** Non-increasing in effective size. */
  ghost predicate SortedDesc(s: seq<AudioFormat>) {
    forall i, j :: 0 <= i < j < |s| ==> EffectiveSize(s[i]) >= EffectiveSize(s[j])
  }

  /** The formats of `s` whose effective size is `k`, in their order in `s`. */
  function WithSize(s: seq<AudioFormat>, k: int): seq<AudioFormat> {
    if s == [] then []
    else if EffectiveSize(s[0]) == k then [s[0]] + WithSize(s[1..], k)
    else WithSize(s[1..], k)
  }

  /** Inserts `x` in front of the first element not larger than it. */
  function Insert(x: AudioFormat, t: seq<AudioFormat>): (r: seq<AudioFormat>)
    requires SortedDesc(t)
    ensures SortedDesc(r)
    ensures multiset(r) == multiset(t) + multiset{x}
    ensures |r| == |t| + 1
  {
    if t == [] then [x]
    else if EffectiveSize(x) >= EffectiveSize(t[0]) then [x] + t
    else
      var rest := Insert(x, t[1..]);
      assert t == [t[0]] + t[1..];
      forall y | y in rest ensures EffectiveSize(t[0]) >= EffectiveSize(y) {
        assert y in multiset(rest);
        if y != x {
          assert y in t[1..];
        }
      }
      PrependSorted(t[0], rest);
      [t[0]] + rest
  }

  lemma PrependSorted(h: AudioFormat, s: seq<AudioFormat>)
    requires SortedDesc(s)
    requires forall y :: y in s ==> EffectiveSize(h) >= EffectiveSize(y)
    ensures SortedDesc([h] + s)
  {
  }

  /** The ranked copy of `formats` (AudioQualitySelector.tsx lines 30-34). */
  function Rank(formats: seq<AudioFormat>): (r: seq<AudioFormat>)
    ensures SortedDesc(r)
    ensures multiset(r) == multiset(formats)
    ensures |r| == |formats|
  {
    if formats == [] then []
    else
      assert formats == [formats[0]] + formats[1..];
      Insert(formats[0], Rank(formats[1..]))
  }

  /** Inserting `x` adds it in front of the formats of its own size and leaves the other sizes alone. */
  lemma {:induction false} InsertWithSize(x: AudioFormat, t: seq<AudioFormat>, k: int)
    requires SortedDesc(t)
    ensures WithSize(Insert(x, t), k) == if EffectiveSize(x) == k then [x] + WithSize(t, k) else WithSize(t, k)
  {
    if t == [] {
    } else if EffectiveSize(x) >= EffectiveSize(t[0]) {
      assert ([x] + t)[1..] == t;
    } else {
      var rest := Insert(x, t[1..]);
      assert ([t[0]] + rest)[1..] == rest;
      InsertWithSize(x, t[1..], k);
    }
  }

  /** Stability: for every size, the formats of that size appear in the ranking in their input order. */
  lemma {:induction false} RankStable(formats: seq<AudioFormat>, k: int)
    ensures WithSize(Rank(formats), k) == WithSize(formats, k)
  {
    if formats != [] {
      RankStable(formats[1..], k);
      InsertWithSize(formats[0], Rank(formats[1..]), k);
    }
  }

  /** Every format with a known positive size is ranked before every format with a missing or zero size. */
  lemma KnownSizesFirst(formats: seq<AudioFormat>, i: nat, j: nat)
    requires i < |Rank(formats)| && j < |Rank(formats)|
    requires EffectiveSize(Rank(formats)[i]) > 0
    requires Rank(formats)[j].filesize == None || Rank(formats)[j].filesize == Some(0)
    ensures i < j
  {
  }

  /** In a descending sequence no size present is larger than the first one. */
  lemma HeadIsLargest(s: seq<AudioFormat>, k: int)
    requires SortedDesc(s) && WithSize(s, k) != []
    ensures k <= EffectiveSize(s[0])
  {
  }

  /**
    The ranking is determined: two sequences that are both sorted descending and
    agree on the formats of every size, in order, are equal. Since `Rank(formats)`
    has both properties with respect to `formats`, any stable descending sort of
    `formats` returns exactly `Rank(formats)`.
  */
  lemma {:induction false} StableSortUnique(s: seq<AudioFormat>, t: seq<AudioFormat>)
    requires SortedDesc(s) && SortedDesc(t)
    requires forall k :: WithSize(s, k) == WithSize(t, k)
    ensures s == t
    decreases |s|
  {
    if s != [] {
      assert WithSize(s, EffectiveSize(s[0])) != [];
      assert WithSize(t, EffectiveSize(s[0])) != [];
    }
    if t != [] {
      assert WithSize(t, EffectiveSize(t[0])) != [];
      assert WithSize(s, EffectiveSize(t[0])) != [];
    }
    if s != [] && t != [] {
      var ks, kt := EffectiveSize(s[0]), EffectiveSize(t[0]);
      HeadIsLargest(t, ks);
      HeadIsLargest(s, kt);
      assert s[0] == WithSize(s, ks)[0] == WithSize(t, ks)[0] == t[0];
      forall k ensures WithSize(s[1..], k) == WithSize(t[1..], k) {
        assert WithSize(s, k) == WithSize(t, k);
        if ks == k {
          assert WithSize(s, k)[1..] == WithSize(s[1..], k);
          assert WithSize(t, k)[1..] == WithSize(t[1..], k);
        }
      }
      StableSortUnique(s[1..], t[1..]);
    }
  }

  /** Any sort that is stable and descending by effective size gives the ranking `Rank` computes. */
  lemma RankUnique(formats: seq<AudioFormat>, sorted: seq<AudioFormat>)
    requires SortedDesc(sorted)
    requires forall k :: WithSize(sorted, k) == WithSize(formats, k)
    ensures sorted == Rank(formats)
  {
    forall k ensures WithSize(sorted, k) == WithSize(Rank(formats), k) {
      RankStable(formats, k);
    }
    StableSortUnique(sorted, Rank(formats));
  }

  /** The `value` of each `SelectItem`: one per ranked format, in ranked order. */
  function OptionValues(formats: seq<AudioFormat>): (values: seq<string>)
    ensures |values| == |formats|
    ensures forall i :: 0 <= i < |values| ==> values[i] == Rank(formats)[i].formatId
    ensures forall f :: f in formats ==> f.formatId in values
  {
    var ranked := Rank(formats);
    var values := seq(|ranked|, i requires 0 <= i < |ranked| => ranked[i].formatId);
    assert forall f :: f in formats ==> f.formatId in values by {
      forall f | f in formats ensures f.formatId in values {
        assert f in multiset(ranked);
        var i :| 0 <= i < |ranked| && ranked[i] == f;
        assert values[i] == f.formatId;
      }
    }
    values
  }
}
