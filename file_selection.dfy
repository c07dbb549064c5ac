/**
 * How workflow/v2/5.prediction_dnn.py picks its inputs out of the bucket
 * listing: the entries that contain the export prefix, split into the image
 * tiles (sorted) and the JSON mixer file (the last one seen).
 */
module FileSelection {
  import opened Wrappers

  const TileSuffix: string := ".tfrecord.gz"
  const JsonSuffix: string := ".json"

  /** `t` occurs in `s` starting at index `i`. */
  predicate OccursAt(s: string, t: string, i: int)
  {
    0 <= i && i + |t| <= |s| && s[i..i + |t|] == t
  }

  /** Python's `t in s` on strings: `t` occurs somewhere in `s`. */
  predicate Contains(s: string, t: string)
  {
    exists i :: 0 <= i <= |s| - |t| && OccursAt(s, t, i)
  }

  /** Python's `s.endswith(t)`. */
  predicate EndsWith(s: string, t: string)
  {
    |t| <= |s| && s[|s| - |t|..] == t
  }

  predicate IsTile(f: string)
  {
    EndsWith(f, TileSuffix)
  }

  predicate IsJson(f: string)
  {
    EndsWith(f, JsonSuffix)
  }

  /** No name is both a tile and a mixer file, so the `elif` loses nothing. */
  lemma TileNotJson(f: string)
    ensures IsTile(f) ==> !IsJson(f)
  {
    if IsTile(f) {
      assert f[|f| - 1] == f[|f| - |TileSuffix|..][|TileSuffix| - 1] == 'z';
      if |f| >= |JsonSuffix| {
        assert f[|f| - |JsonSuffix|..][|JsonSuffix| - 1] == f[|f| - 1];
      }
    }
  }

  /** Every name contains the empty prefix: with an empty prefix nothing is filtered out. */
  lemma ContainsEmpty(s: string)
    ensures Contains(s, "")
  {
    assert OccursAt(s, "", 0);
  }

  /** The list comprehension of the source: the entries of the listing that contain `prefix`, in order. */
  function Exported(listing: seq<string>, prefix: string): (r: seq<string>)
    ensures |r| <= |listing|
    ensures forall f :: f in r <==> f in listing && Contains(f, prefix)
    decreases |listing|
  {
    if |listing| == 0 then []
    else
      var rest := Exported(listing[..|listing| - 1], prefix);
      var f := listing[|listing| - 1];
      assert listing == listing[..|listing| - 1] + [f];
      if Contains(f, prefix) then rest + [f] else rest
  }

  /** With an empty prefix the comprehension keeps the whole listing, in order. */
  lemma {:induction false} EmptyPrefixKeepsAll(listing: seq<string>)
    ensures Exported(listing, "") == listing
    decreases |listing|
  {
    if |listing| > 0 {
      var init := listing[..|listing| - 1];
      EmptyPrefixKeepsAll(init);
      ContainsEmpty(listing[|listing| - 1]);
      assert listing == init + [listing[|listing| - 1]];
    }
  }

  /** The comprehension keeps every entry with the prefix as often as the listing has it, and no other. */
  lemma {:induction false} ExportedCounts(listing: seq<string>, prefix: string, f: string)
    ensures multiset(Exported(listing, prefix))[f] == if Contains(f, prefix) then multiset(listing)[f] else 0
    decreases |listing|
  {
    if |listing| > 0 {
      var init := listing[..|listing| - 1];
      ExportedCounts(init, prefix, f);
      assert listing == init + [listing[|listing| - 1]];
    }
  }

  /** The tile names of `files`, in the order the loop appends them. */
  function Tiles(files: seq<string>): (r: seq<string>)
    ensures forall f :: f in r <==> f in files && IsTile(f)
    decreases |files|
  {
    if |files| == 0 then []
    else
      var rest := Tiles(files[..|files| - 1]);
      var f := files[|files| - 1];
      assert files == files[..|files| - 1] + [f];
      if IsTile(f) then rest + [f] else rest
  }

  /** The loop keeps every tile as often as the files have it, and no other name. */
  lemma {:induction false} TilesCounts(files: seq<string>, f: string)
    ensures multiset(Tiles(files))[f] == if IsTile(f) then multiset(files)[f] else 0
    decreases |files|
  {
    if |files| > 0 {
      var init := files[..|files| - 1];
      TilesCounts(init, f);
      assert files == init + [files[|files| - 1]];
    }
  }

  /**
   * The tile list holds every listing entry that has the prefix and is a
   * tile, as often as the listing has it, and nothing else.
   */
  lemma SelectedTileCounts(listing: seq<string>, prefix: string, f: string)
    ensures multiset(Tiles(Exported(listing, prefix)))[f] ==
              if Contains(f, prefix) && IsTile(f) then multiset(listing)[f] else 0
  {
    TilesCounts(Exported(listing, prefix), f);
    ExportedCounts(listing, prefix, f);
  }

  /** A name the `elif` branch takes: a mixer file that is not a tile. */
  predicate IsMixer(f: string)
  {
    !IsTile(f) && IsJson(f)
  }

  /**
   * The position of the last mixer file of `files`, or -1 when there is none:
   * every later name is something else.
   */
  function LastMixerIndex(files: seq<string>): (r: int)
    ensures -1 <= r < |files|
    ensures r >= 0 ==> IsMixer(files[r])
    ensures forall j :: r < j < |files| ==> !IsMixer(files[j])
    decreases |files|
  {
    if |files| == 0 then -1
    else if IsMixer(files[|files| - 1]) then |files| - 1
    else
      var init := files[..|files| - 1];
      var r := LastMixerIndex(init);
      assert forall j :: r < j < |init| ==> init[j] == files[j];
      r
  }

  /** The value `json_file` is left with: the last mixer file of `files`, or None. */
  function LastJson(files: seq<string>): Option<string>
  {
    var k := LastMixerIndex(files);
    if k < 0 then None else Some(files[k])
  }

  /** `json_file` is None exactly when no name of `files` is a mixer file. */
  lemma LastJsonNone(files: seq<string>)
    ensures LastJson(files).None? <==> forall k :: 0 <= k < |files| ==> !IsMixer(files[k])
  {
  }

  /** One more name either becomes the mixer file or leaves it as it was. */
  lemma LastJsonSnoc(files: seq<string>, f: string)
    ensures LastJson(files + [f]) == if IsMixer(f) then Some(f) else LastJson(files)
  {
    assert (files + [f])[..|files|] == files;
  }

  /** An entry the source would take as the mixer file: it has the prefix and ends in `.json`. */
  predicate PrefixedJson(f: string, prefix: string)
  {
    Contains(f, prefix) && IsJson(f)
  }

  /** No entry of `listing` after position `k` is a prefixed mixer file. */
  predicate NonePrefixedJsonAfter(listing: seq<string>, prefix: string, k: int)
  {
    forall m :: 0 <= m < |listing| && k < m ==> !PrefixedJson(listing[m], prefix)
  }

  /** The last name of `listing`, when not itself taken, does not change the result. */
  lemma ExportedSnoc(listing: seq<string>, prefix: string)
    requires |listing| > 0
    ensures var init, f := listing[..|listing| - 1], listing[|listing| - 1];
            LastJson(Exported(listing, prefix)) ==
              if PrefixedJson(f, prefix) then Some(f) else LastJson(Exported(init, prefix))
  {
    var init, f := listing[..|listing| - 1], listing[|listing| - 1];
    var e := Exported(init, prefix);
    TileNotJson(f);
    if Contains(f, prefix) {
      assert Exported(listing, prefix) == e + [f];
      LastJsonSnoc(e, f);
    }
  }

  /**
   * Read against the listing itself: `json_file` is an entry of the listing
   * that has the prefix and ends in `.json`, and no later entry does both.
   */
  lemma {:induction false} LastJsonOfListing(listing: seq<string>, prefix: string)
    requires LastJson(Exported(listing, prefix)).Some?
    ensures exists k :: 0 <= k < |listing| && listing[k] == LastJson(Exported(listing, prefix)).value
                        && PrefixedJson(listing[k], prefix) && NonePrefixedJsonAfter(listing, prefix, k)
    decreases |listing|
  {
    var init, f := listing[..|listing| - 1], listing[|listing| - 1];
    ExportedSnoc(listing, prefix);
    if PrefixedJson(f, prefix) {
      assert NonePrefixedJsonAfter(listing, prefix, |listing| - 1);
    } else {
      LastJsonOfListing(init, prefix);
      var k :| 0 <= k < |init| && init[k] == LastJson(Exported(init, prefix)).value
               && PrefixedJson(init[k], prefix) && NonePrefixedJsonAfter(init, prefix, k);
      assert listing[k] == init[k];
      forall m | 0 <= m < |listing| && k < m ensures !PrefixedJson(listing[m], prefix) {
        if m < |init| { assert listing[m] == init[m]; } else { assert listing[m] == f; }
      }
    }
  }

  /** `json_file` stays None exactly when no entry of the listing has the prefix and ends in `.json`. */
  lemma {:induction false} LastJsonNoneOfListing(listing: seq<string>, prefix: string)
    ensures LastJson(Exported(listing, prefix)).None? <==> NonePrefixedJsonAfter(listing, prefix, -1)
    decreases |listing|
  {
    if |listing| > 0 {
      var init := listing[..|listing| - 1];
      ExportedSnoc(listing, prefix);
      LastJsonNoneOfListing(init, prefix);
      assert forall m :: 0 <= m < |init| ==> listing[m] == init[m];
    }
  }

  /** Python's `<=` on strings: code-point-wise lexicographic order. */
  predicate LexLeq(a: string, b: string)
    decreases |a|
  {
    |a| == 0 || (|b| > 0 && (a[0] < b[0] || (a[0] == b[0] && LexLeq(a[1..], b[1..]))))
  }

  lemma {:induction false} LexLeqRefl(a: string)
    ensures LexLeq(a, a)
    decreases |a|
  {
    if |a| > 0 {
      LexLeqRefl(a[1..]);
    }
  }

  lemma {:induction false} LexLeqTotal(a: string, b: string)
    ensures LexLeq(a, b) || LexLeq(b, a)
    decreases |a|
  {
    if |a| > 0 && |b| > 0 && a[0] == b[0] {
      LexLeqTotal(a[1..], b[1..]);
    }
  }

  lemma {:induction false} LexLeqAntisym(a: string, b: string)
    requires LexLeq(a, b) && LexLeq(b, a)
    ensures a == b
    decreases |a|
  {
    if |a| > 0 {
      LexLeqAntisym(a[1..], b[1..]);
      assert a == [a[0]] + a[1..] && b == [b[0]] + b[1..];
    }
  }

  lemma {:induction false} LexLeqTrans(a: string, b: string, c: string)
    requires LexLeq(a, b) && LexLeq(b, c)
    ensures LexLeq(a, c)
    decreases |a|
  {
    if |a| > 0 && a[0] == b[0] && b[0] == c[0] {
      LexLeqTrans(a[1..], b[1..], c[1..]);
    }
  }

  predicate Sorted(s: seq<string>)
  {
    forall i, j :: 0 <= i < j < |s| ==> LexLeq(s[i], s[j])
  }

  /** `h` is at most every name of `t`. */
  predicate AtMostAll(h: string, t: seq<string>)
  {
    forall j :: 0 <= j < |t| ==> LexLeq(h, t[j])
  }

  lemma SortedCons(h: string, t: seq<string>)
    requires Sorted(t) && AtMostAll(h, t)
    ensures Sorted([h] + t)
  {
    var r := [h] + t;
    forall i, j | 0 <= i < j < |r| ensures LexLeq(r[i], r[j]) {
      assert r[j] == t[j - 1];
      if i > 0 {
        assert r[i] == t[i - 1];
      }
    }
  }

  lemma SortedTail(s: seq<string>)
    requires Sorted(s) && |s| > 0
    ensures Sorted(s[1..]) && AtMostAll(s[0], s[1..])
  {
    var t := s[1..];
    assert forall j :: 0 <= j < |t| ==> t[j] == s[j + 1];
  }

  /** `x` put into `s` in front of the first name it does not exceed. */
  function Insert(x: string, s: seq<string>): (r: seq<string>)
    ensures multiset(r) == multiset(s) + multiset{x}
    decreases |s|
  {
    if |s| == 0 then [x]
    else if LexLeq(x, s[0]) then [x] + s
    else
      assert s == [s[0]] + s[1..];
      [s[0]] + Insert(x, s[1..])
  }

  lemma AtMostAllCons(h: string, y: string, t: seq<string>)
    requires LexLeq(h, y) && AtMostAll(h, t)
    ensures AtMostAll(h, [y] + t)
  {
    var r := [y] + t;
    assert forall j :: 1 <= j < |r| ==> r[j] == t[j - 1];
  }

  lemma {:induction false} InsertAtMostAll(h: string, x: string, s: seq<string>)
    requires AtMostAll(h, s) && LexLeq(h, x)
    ensures AtMostAll(h, Insert(x, s))
    decreases |s|
  {
    if |s| == 0 {
      AtMostAllCons(h, x, []);
    } else if LexLeq(x, s[0]) {
      AtMostAllCons(h, x, s);
    } else {
      var t := s[1..];
      assert forall j :: 0 <= j < |t| ==> t[j] == s[j + 1];
      InsertAtMostAll(h, x, t);
      AtMostAllCons(h, s[0], Insert(x, t));
    }
  }

  /** Inserting into a sorted list keeps it sorted. */
  lemma {:induction false} InsertSorted(x: string, s: seq<string>)
    requires Sorted(s)
    ensures Sorted(Insert(x, s))
    decreases |s|
  {
    if |s| == 0 {
    } else if LexLeq(x, s[0]) {
      forall j | 0 <= j < |s| ensures LexLeq(x, s[j]) {
        if j > 0 { LexLeqTrans(x, s[0], s[j]); }
      }
      SortedCons(x, s);
    } else {
      LexLeqTotal(x, s[0]);
      SortedTail(s);
      InsertSorted(x, s[1..]);
      InsertAtMostAll(s[0], x, s[1..]);
      SortedCons(s[0], Insert(x, s[1..]));
    }
  }

  /** `image_files_list.sort()`: the same names, in ascending order. */
  function SortStrings(s: seq<string>): (r: seq<string>)
    ensures Sorted(r)
    ensures multiset(r) == multiset(s)
    decreases |s|
  {
    if |s| == 0 then []
    else
      assert s == [s[0]] + s[1..];
      var t := SortStrings(s[1..]);
      InsertSorted(s[0], t);
      Insert(s[0], t)
  }

  /**
   * A sorted order is unique: any two sorted arrangements of the same names
   * are equal, so the tile list does not depend on how it is sorted.
   */
  lemma {:induction false} SortedUnique(a: seq<string>, b: seq<string>)
    requires Sorted(a) && Sorted(b) && multiset(a) == multiset(b)
    ensures a == b
    decreases |a|
  {
    assert |a| == |multiset(a)| == |multiset(b)| == |b|;
    if |a| > 0 {
      SortedHeadLeast(a, b[0]);
      SortedHeadLeast(b, a[0]);
      LexLeqAntisym(a[0], b[0]);
      TailMultiset(a);
      TailMultiset(b);
      SortedTail(a);
      SortedTail(b);
      SortedUnique(a[1..], b[1..]);
      assert a == [a[0]] + a[1..] && b == [b[0]] + b[1..];
    }
  }

  /** The head of a sorted list is at most any of its names. */
  lemma SortedHeadLeast(a: seq<string>, y: string)
    requires Sorted(a) && y in multiset(a)
    ensures |a| > 0 && LexLeq(a[0], y)
  {
    var i :| 0 <= i < |a| && a[i] == y;
    if i == 0 { LexLeqRefl(y); }
  }

  lemma TailMultiset(a: seq<string>)
    requires |a| > 0
    ensures multiset(a[1..]) == multiset(a) - multiset{a[0]}
  {
    assert a == [a[0]] + a[1..];
  }

  /**
   * Lines 37-49: filter the listing, walk it once putting tiles in a list
   * and remembering the last mixer file, then sort the tile list.
   */
  method SelectFiles(listing: seq<string>, prefix: string) returns (images: seq<string>, json: Option<string>)
    ensures Sorted(images)
    ensures multiset(images) == multiset(Tiles(Exported(listing, prefix)))
    ensures forall f :: multiset(images)[f] == if Contains(f, prefix) && IsTile(f) then multiset(listing)[f] else 0
    ensures forall f :: f in images <==> f in listing && Contains(f, prefix) && IsTile(f)
    ensures json == LastJson(Exported(listing, prefix))
    ensures json.Some? ==> json.value in listing && Contains(json.value, prefix) && IsJson(json.value)
                           && json.value !in images
    ensures json.Some? ==>
              exists k :: 0 <= k < |listing| && listing[k] == json.value
                          && PrefixedJson(listing[k], prefix) && NonePrefixedJsonAfter(listing, prefix, k)
    ensures json.None? <==> NonePrefixedJsonAfter(listing, prefix, -1)
  {
    var exported := Exported(listing, prefix);
    images, json := [], None;
    var i := 0;
    while i < |exported|
      invariant 0 <= i <= |exported|
      invariant images == Tiles(exported[..i])
      invariant json == LastJson(exported[..i])
    {
      var f := exported[i];
      assert exported[..i + 1] == exported[..i] + [f];
      if IsTile(f) {
        images := images + [f];
      } else if IsJson(f) {
        json := Some(f);
      }
      i := i + 1;
    }
    assert exported[..i] == exported;
    ghost var tiles := images;
    images := SortStrings(images);
    assert forall f :: f in images <==> f in multiset(tiles);
    if json.Some? {
      assert exported[LastMixerIndex(exported)] in exported;
    }
    if json.Some? {
      LastJsonOfListing(listing, prefix);
    }
    LastJsonNoneOfListing(listing, prefix);
    forall f ensures multiset(images)[f] == if Contains(f, prefix) && IsTile(f) then multiset(listing)[f] else 0 {
      SelectedTileCounts(listing, prefix, f);
    }
  }
}
