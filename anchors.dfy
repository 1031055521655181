/** Anchor ordering: `PerspectiveWarper.find_anchor_points`. One centroid per
    detected marker; when exactly four markers are seen, the centroids are
    reordered by ascending marker id with a stable sort, otherwise they stay in
    detector order (and the callers reject them). */
module AnchorOrdering {
  import opened WarperTypes

  /** The centroids of `markers`, in the same order. */
  function Centroids(markers: seq<Marker>): (r: seq<Point>)
    ensures |r| == |markers|
    ensures forall i :: 0 <= i < |markers| ==> r[i] == markers[i].centroid
  {
    if markers == [] then [] else [markers[0].centroid] + Centroids(markers[1..])
  }

  ghost predicate SortedById(s: seq<Marker>) {
    forall i, j :: 0 <= i < j < |s| ==> s[i].id <= s[j].id
  }

  /** The markers of `s` that carry id `k`, in their order in `s`. */
  function FilterId(s: seq<Marker>, k: int): seq<Marker> {
    if s == [] then [] else (if s[0].id == k then [s[0]] else []) + FilterId(s[1..], k)
  }

  /** `t` is `s` ordered by non-decreasing id, markers with equal ids keeping
      their relative order in `s`: what a stable sort keyed on the id yields. */
  ghost predicate IsStableSortById(t: seq<Marker>, s: seq<Marker>) {
    && SortedById(t)
    && multiset(t) == multiset(s)
    && forall k :: FilterId(t, k) == FilterId(s, k)
  }

  /** Places `m` before the first marker whose id is not smaller than its own. */
  function InsertById(m: Marker, s: seq<Marker>): (r: seq<Marker>)
    ensures |r| == |s| + 1
  {
    if s == [] || m.id <= s[0].id then [m] + s
    else [s[0]] + InsertById(m, s[1..])
  }

  /** The key-ordered sort Python's `sorted` performs on the (id, centroid)
      pairs, written as an insertion sort. */
  function SortById(s: seq<Marker>): (r: seq<Marker>)
    ensures |r| == |s|
  {
    if s == [] then [] else InsertById(s[0], SortById(s[1..]))
  }

  lemma {:induction false} InsertByIdSorts(m: Marker, s: seq<Marker>)
    ensures multiset(InsertById(m, s)) == multiset(s) + multiset{m}
    ensures InsertById(m, s)[0] == m || (s != [] && InsertById(m, s)[0] == s[0])
    ensures SortedById(s) ==> SortedById(InsertById(m, s))
  {
    if s != [] && m.id > s[0].id {
      InsertByIdSorts(m, s[1..]);
      assert s == [s[0]] + s[1..];
    }
  }

  /** The sort permutes its input into non-decreasing id order. */
  lemma {:induction false} SortByIdSorts(s: seq<Marker>)
    ensures multiset(SortById(s)) == multiset(s)
    ensures SortedById(SortById(s))
  {
    if s != [] {
      SortByIdSorts(s[1..]);
      InsertByIdSorts(s[0], SortById(s[1..]));
      assert s == [s[0]] + s[1..];
    }
  }

  /** What `find_anchor_points` returns for the detector's markers. */
  function AnchorPoints(markers: seq<Marker>): (r: seq<Point>)
    ensures |r| == |markers|
  {
    if |markers| == 4 then Centroids(SortById(markers)) else Centroids(markers)
  }

  /** The callers' test on a frame: its anchor list has length exactly 4,
      which (one point per marker) is when the detector saw four markers. */
  predicate HasFourAnchors(vision: Vision, frame: Frame) {
    |vision.detectMarkers(frame)| == 4
  }

  /** The callers' test reads the detector count: the anchor list of a frame
      has four points exactly when four markers were detected in it. */
  lemma HasFourAnchorsIsAnchorCount(vision: Vision, frame: Frame)
    ensures HasFourAnchors(vision, frame) <==> |AnchorPoints(vision.detectMarkers(frame))| == 4
  {
  }

  /** `find_anchor_points(image)`: one centroid per detected marker, appended
      in detector order; with exactly four of them, the (id, centroid) pairs
      are sorted by id and the centroids taken in that order. */
  method FindAnchorPoints(vision: Vision, image: Frame) returns (anchorPoints: seq<Point>)
    ensures anchorPoints == AnchorPoints(vision.detectMarkers(image))
    ensures |anchorPoints| == 4 <==> HasFourAnchors(vision, image)
  {
    var markers := vision.detectMarkers(image);
    anchorPoints := [];
    for i := 0 to |markers|
      invariant |anchorPoints| == i
      invariant forall j :: 0 <= j < i ==> anchorPoints[j] == markers[j].centroid
    {
      anchorPoints := anchorPoints + [markers[i].centroid];
    }
    if |anchorPoints| == 4 {
      // zip(ids, anchor_points): each id paired with the centroid computed for it
      var pairs := seq(|anchorPoints|, j requires 0 <= j < |anchorPoints| =>
        Marker(markers[j].id, anchorPoints[j]));
      assert pairs == markers;
      anchorPoints := Centroids(SortById(pairs));
    }
  }

  // ---------------------------------------------------------------------
  // Properties of the ordering

  /** With any count other than four the centroids keep detector order. */
  lemma AnchorPointsInDetectorOrder(markers: seq<Marker>)
    requires |markers| != 4
    ensures forall i :: 0 <= i < |markers| ==> AnchorPoints(markers)[i] == markers[i].centroid
  {
  }

  lemma {:induction false} FilterIdInsert(m: Marker, s: seq<Marker>, k: int)
    ensures FilterId(InsertById(m, s), k) == (if m.id == k then [m] else []) + FilterId(s, k)
  {
    var head := if m.id == k then [m] else [];
    if s == [] || m.id <= s[0].id {
      var r := [m] + s;
      assert r[0] == m && r[1..] == s;
      assert FilterId(r, k) == head + FilterId(s, k);
    } else {
      var t := InsertById(m, s[1..]);
      var r := [s[0]] + t;
      FilterIdInsert(m, s[1..], k);
      assert r[0] == s[0] && r[1..] == t;
      var first := if s[0].id == k then [s[0]] else [];
      assert FilterId(r, k) == first + FilterId(t, k);
      assert FilterId(s, k) == first + FilterId(s[1..], k);
      assert first == [] || head == [];
    }
  }

  /** The sort is stable: for every id, the markers carrying it appear in the
      result in detector order. */
  lemma {:induction false} SortByIdIsStable(s: seq<Marker>, k: int)
    ensures FilterId(SortById(s), k) == FilterId(s, k)
  {
    if s != [] {
      SortByIdIsStable(s[1..], k);
      FilterIdInsert(s[0], SortById(s[1..]), k);
    }
  }

  lemma SortByIdIsStableSort(s: seq<Marker>)
    ensures IsStableSortById(SortById(s), s)
  {
    SortByIdSorts(s);
    forall k ensures FilterId(SortById(s), k) == FilterId(s, k) {
      SortByIdIsStable(s, k);
    }
  }

  /** A sorted sequence has no marker of an id below its head's. */
  lemma {:induction false} FilterBelowHead(s: seq<Marker>, k: int)
    requires SortedById(s) && s != [] && k < s[0].id
    ensures FilterId(s, k) == []
  {
    if |s| > 1 {
      FilterBelowHead(s[1..], k);
    }
  }

  /** Two id-sorted sequences with the same markers per id are equal. */
  lemma {:induction false} SortedSameFiltersEqual(t: seq<Marker>, u: seq<Marker>)
    requires SortedById(t) && SortedById(u)
    requires forall k :: FilterId(t, k) == FilterId(u, k)
    ensures t == u
  {
    if t == [] || u == [] {
      assert t != [] ==> FilterId(t, t[0].id) != [];
      assert u != [] ==> FilterId(u, u[0].id) != [];
    } else {
      var a, b := t[0].id, u[0].id;
      if a < b {
        FilterBelowHead(u, a);
      } else if b < a {
        FilterBelowHead(t, b);
      }
      assert FilterId(t, a)[0] == t[0] && FilterId(u, a)[0] == u[0];
      forall k ensures FilterId(t[1..], k) == FilterId(u[1..], k) {
        var n := if a == k then 1 else 0;
        assert FilterId(t[1..], k) == FilterId(t, k)[n..];
        assert FilterId(u[1..], k) == FilterId(u, k)[n..];
      }
      SortedSameFiltersEqual(t[1..], u[1..]);
      assert t == [t[0]] + t[1..] && u == [u[0]] + u[1..];
    }
  }

  /** Any stable id-ordering of `s` is the one `SortById` computes, so the
      model's insertion sort and Python's `sorted` agree on every input. */
  lemma StableSortIsUnique(s: seq<Marker>, t: seq<Marker>)
    requires IsStableSortById(t, s)
    ensures t == SortById(s)
  {
    SortByIdIsStableSort(s);
    SortedSameFiltersEqual(t, SortById(s));
  }

  /** With exactly four markers, the anchors are the centroids of the stable
      id-ordering of the markers (which exists, and is unique). */
  lemma FourAnchorsInIdOrder(markers: seq<Marker>)
    requires |markers| == 4
    ensures IsStableSortById(SortById(markers), markers)
    ensures forall t :: IsStableSortById(t, markers) ==> AnchorPoints(markers) == Centroids(t)
  {
    SortByIdIsStableSort(markers);
    forall t | IsStableSortById(t, markers) ensures AnchorPoints(markers) == Centroids(t) {
      StableSortIsUnique(markers, t);
    }
  }

  lemma CentroidsCons(m: Marker, s: seq<Marker>)
    ensures Centroids([m] + s) == [m.centroid] + Centroids(s)
  {
    assert ([m] + s)[1..] == s;
  }

  lemma {:induction false} CentroidsInsert(m: Marker, s: seq<Marker>)
    ensures multiset(Centroids(InsertById(m, s))) == multiset(Centroids(s)) + multiset{m.centroid}
  {
    if s == [] || m.id <= s[0].id {
      CentroidsCons(m, s);
    } else {
      var rest := InsertById(m, s[1..]);
      assert InsertById(m, s) == [s[0]] + rest;
      assert s == [s[0]] + s[1..];
      CentroidsCons(s[0], rest);
      CentroidsCons(s[0], s[1..]);
      CentroidsInsert(m, s[1..]);
      calc {
        multiset(Centroids(InsertById(m, s)));
        multiset([s[0].centroid] + Centroids(rest));
        multiset{s[0].centroid} + multiset(Centroids(rest));
        multiset{s[0].centroid} + multiset(Centroids(s[1..])) + multiset{m.centroid};
        multiset([s[0].centroid] + Centroids(s[1..])) + multiset{m.centroid};
      }
    }
  }

  lemma {:induction false} CentroidsSort(s: seq<Marker>)
    ensures multiset(Centroids(SortById(s))) == multiset(Centroids(s))
  {
    if s != [] {
      CentroidsSort(s[1..]);
      CentroidsInsert(s[0], SortById(s[1..]));
    }
  }

  /** The anchors are always a permutation of the markers' centroids. */
  lemma AnchorsArePermutedCentroids(markers: seq<Marker>)
    ensures multiset(AnchorPoints(markers)) == multiset(Centroids(markers))
  {
    if |markers| == 4 {
      CentroidsSort(markers);
    }
  }

  /** With four markers, the first anchor is the centroid of a marker with the
      lowest id; it is the one mapped onto the canvas's top-right corner. */
  lemma LowestIdAnchorFirst(markers: seq<Marker>)
    requires |markers| == 4
    ensures exists j :: 0 <= j < 4 && AnchorPoints(markers)[0] == markers[j].centroid &&
                        forall l :: 0 <= l < 4 ==> markers[j].id <= markers[l].id
  {
    var sorted := SortById(markers);
    SortByIdSorts(markers);
    assert sorted[0] in multiset(markers);
    var j :| 0 <= j < 4 && markers[j] == sorted[0];
    forall l | 0 <= l < 4 ensures markers[j].id <= markers[l].id {
      assert markers[l] in multiset(sorted);
      var p :| 0 <= p < 4 && sorted[p] == markers[l];
    }
  }

  /** Markers seen in id order 3, 1, 4, 2 give their anchors in id order
      1, 2, 3, 4; three markers are left as the detector reported them. */
  lemma {:induction false} OrderingExample(p1: Point, p2: Point, p3: Point, p4: Point)
    ensures AnchorPoints([Marker(3, p3), Marker(1, p1), Marker(4, p4), Marker(2, p2)]) == [p1, p2, p3, p4]
    ensures AnchorPoints([Marker(3, p3), Marker(1, p1), Marker(4, p4)]) == [p3, p1, p4]
  {
    var m1, m2, m3, m4 := Marker(1, p1), Marker(2, p2), Marker(3, p3), Marker(4, p4);
    assert SortById([m2]) == [m2] by {
      assert [m2][1..] == [];
    }
    assert SortById([m4, m2]) == [m2, m4] by {
      assert [m4, m2][1..] == [m2];
      assert InsertById(m4, [m2]) == [m2] + InsertById(m4, []);
    }
    assert SortById([m1, m4, m2]) == [m1, m2, m4] by {
      assert [m1, m4, m2][1..] == [m4, m2];
    }
    assert SortById([m3, m1, m4, m2]) == [m1, m2, m3, m4] by {
      assert [m3, m1, m4, m2][1..] == [m1, m4, m2];
      assert InsertById(m3, [m1, m2, m4]) == [m1] + InsertById(m3, [m2, m4]);
      assert [m1, m2, m4][1..] == [m2, m4];
      assert InsertById(m3, [m2, m4]) == [m2] + InsertById(m3, [m4]);
      assert [m2, m4][1..] == [m4];
    }
  }
}
