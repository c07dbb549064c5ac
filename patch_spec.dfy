/**
 * What the prediction writer of workflow/v2/5.prediction_dnn.py produces, as
 * functions of the prediction stream: which records come out, which
 * predictions land in which record, what is left in the buffers, and which
 * progress lines are printed.
 */
module PatchSpec {

  /** One model output for one pixel: its score row, flattened. */
  datatype Prediction = Prediction(scores: seq<real>)

  /**
   * One output example: the class index of every pixel of the patch and the
   * first five class scores, one field per class.
   */
  datatype Record = Record(
    prediction: seq<int>,
    croplandEtc: seq<real>,
    rice: seq<real>,
    forest: seq<real>,
    urban: seq<real>,
    othersEtc: seq<real>)

  /** Number of class scores copied into every record. */
  const ScoreFields: nat := 5

  /** A progress line is printed for every patch whose number is a multiple of this. */
  const ProgressEvery: nat := 100

  /** A prediction the writer can take without raising: it has all five scores. */
  predicate WellFormed(p: Prediction)
  {
    |p.scores| >= ScoreFields
  }

  predicate AllWellFormed(ps: seq<Prediction>)
  {
    forall i :: 0 <= i < |ps| ==> WellFormed(ps[i])
  }

  /** Index of the first maximum, as numpy's argmax returns it. */
  function Argmax(xs: seq<real>): (k: nat)
    requires |xs| > 0
    ensures k < |xs|
    ensures forall j :: 0 <= j < |xs| ==> xs[j] <= xs[k]
    ensures forall j :: 0 <= j < k ==> xs[j] < xs[k]
    decreases |xs|
  {
    if |xs| == 1 then 0
    else
      var k := Argmax(xs[..|xs| - 1]);
      if xs[|xs| - 1] > xs[k] then |xs| - 1 else k
  }

  /**
   * The class index the writer stores for `p`. Only well-formed predictions
   * reach a buffer, so the value chosen for an empty row never shows.
   */
  function ClassOf(p: Prediction): int
  {
    if |p.scores| > 0 then Argmax(p.scores) else 0
  }

  /** Score `j` of `p`, as the writer stores it for a well-formed prediction. */
  function ScoreOf(p: Prediction, j: nat): real
  {
    if j < |p.scores| then p.scores[j] else 0.0
  }

  /** `r` with one more pixel: the class index and the five scores of `p`. */
  function AddPixel(r: Record, p: Prediction): Record
  {
    Record(r.prediction + [ClassOf(p)], r.croplandEtc + [ScoreOf(p, 0)], r.rice + [ScoreOf(p, 1)],
           r.forest + [ScoreOf(p, 2)], r.urban + [ScoreOf(p, 3)], r.othersEtc + [ScoreOf(p, 4)])
  }

  /** Every field of `r` has `n` entries. */
  predicate FieldsHaveLength(r: Record, n: int)
  {
    |r.prediction| == n && |r.croplandEtc| == n && |r.rice| == n
    && |r.forest| == n && |r.urban| == n && |r.othersEtc| == n
  }

  /** The record built from a run of predictions, one pixel per prediction, in order. */
  function ToRecord(ps: seq<Prediction>): (r: Record)
  {
    Record(seq(|ps|, i requires 0 <= i < |ps| => ClassOf(ps[i])),
           seq(|ps|, i requires 0 <= i < |ps| => ScoreOf(ps[i], 0)),
           seq(|ps|, i requires 0 <= i < |ps| => ScoreOf(ps[i], 1)),
           seq(|ps|, i requires 0 <= i < |ps| => ScoreOf(ps[i], 2)),
           seq(|ps|, i requires 0 <= i < |ps| => ScoreOf(ps[i], 3)),
           seq(|ps|, i requires 0 <= i < |ps| => ScoreOf(ps[i], 4)))
  }

  /**
   * The records written for the stream `ps` when a patch holds `size`
   * predictions: one per complete patch, in stream order. A size below one
   * never fills a patch.
   */
  function Chunks(ps: seq<Prediction>, size: int): seq<Record>
    decreases |ps|
  {
    if size <= 0 || |ps| < size then []
    else [ToRecord(ps[..size])] + Chunks(ps[size..], size)
  }

  /** The predictions still in the buffers once the stream `ps` is consumed. */
  function Pending(ps: seq<Prediction>, size: int): (r: seq<Prediction>)
    ensures |r| <= |ps|
    ensures size >= 1 ==> |r| < size
    ensures size <= 0 ==> r == ps
    decreases |ps|
  {
    if size <= 0 || |ps| < size then ps
    else Pending(ps[size..], size)
  }

  /** The patch numbers for which a progress line is printed once `m` records are written. */
  function Milestones(m: nat): seq<int>
  {
    if m == 0 then []
    else Milestones(m - 1) + (if m % ProgressEvery == 0 then [m] else [])
  }

  /** Adding one prediction to a run adds one pixel to its record. */
  lemma ToRecordSnoc(ps: seq<Prediction>, p: Prediction)
    ensures ToRecord(ps + [p]) == AddPixel(ToRecord(ps), p)
  {
    var qs := ps + [p];
    assert forall i :: 0 <= i < |ps| ==> qs[i] == ps[i];
    var a, b := ToRecord(qs), AddPixel(ToRecord(ps), p);
    assert a.prediction == b.prediction;
    assert a.croplandEtc == b.croplandEtc;
    assert a.rice == b.rice;
    assert a.forest == b.forest;
    assert a.urban == b.urban;
    assert a.othersEtc == b.othersEtc;
  }

  /** Euclidean division is determined by quotient and remainder. */
  lemma DivUnique(m: int, s: int, q: int, r: int)
    requires s > 0 && 0 <= r < s && m == q * s + r
    ensures m / s == q && m % s == r
  {
    var d := q - m / s;
    assert d * s == m % s - r;
  }

  lemma MulSucc(q: int, s: int)
    ensures (q + 1) * s == q * s + s
  {
  }

  /**
   * Feeding one more prediction either completes the pending patch, which is
   * then emitted as one more record and the buffers empty, or it joins the
   * pending predictions and nothing is emitted.
   */
  lemma {:induction false} ChunksStep(ps: seq<Prediction>, size: int, p: Prediction)
    ensures size >= 1 && |Pending(ps, size)| + 1 == size ==>
              Chunks(ps + [p], size) == Chunks(ps, size) + [ToRecord(Pending(ps, size) + [p])]
              && Pending(ps + [p], size) == []
    ensures !(size >= 1 && |Pending(ps, size)| + 1 == size) ==>
              Chunks(ps + [p], size) == Chunks(ps, size)
              && Pending(ps + [p], size) == Pending(ps, size) + [p]
    decreases |ps|
  {
    var qs := ps + [p];
    if size <= 0 || |ps| < size {
      assert Pending(ps, size) == ps;
      if size >= 1 && |ps| + 1 == size {
        assert qs[..size] == qs && qs[size..] == [];
      }
    } else {
      assert qs[..size] == ps[..size];
      assert qs[size..] == ps[size..] + [p];
      ChunksStep(ps[size..], size, p);
    }
  }

  /** Every prediction of the stream is either in a record or pending. */
  lemma {:induction false} ChunksCover(ps: seq<Prediction>, size: int)
    requires size >= 1
    ensures |Chunks(ps, size)| * size + |Pending(ps, size)| == |ps|
    decreases |ps|
  {
    if |ps| >= size {
      var rest := ps[size..];
      ChunksCover(rest, size);
      var q, r := |Chunks(rest, size)|, |Pending(rest, size)|;
      assert |Chunks(ps, size)| == q + 1;
      assert |Pending(ps, size)| == r;
      assert q * size + r + size == |ps|;
      MulSucc(q, size);
    }
  }

  /**
   * The pending predictions are exactly the tail of the stream after the
   * last complete patch.
   */
  lemma {:induction false} PendingSuffix(ps: seq<Prediction>, size: int)
    requires size >= 1
    ensures |Chunks(ps, size)| * size <= |ps|
    ensures Pending(ps, size) == ps[|Chunks(ps, size)| * size..]
    decreases |ps|
  {
    if |ps| >= size {
      var rest := ps[size..];
      PendingSuffix(rest, size);
      var q := |Chunks(rest, size)|;
      assert |Chunks(ps, size)| == q + 1;
      MulSucc(q, size);
      assert rest[q * size..] == ps[(q + 1) * size..];
    }
  }

  /**
   * For a patch size of at least one, exactly |ps| / size records come out
   * and the last |ps| % size predictions stay pending; a smaller size writes
   * nothing and keeps every prediction pending.
   */
  lemma ChunksCount(ps: seq<Prediction>, size: int)
    ensures size >= 1 ==>
              |Chunks(ps, size)| == |ps| / size && |Pending(ps, size)| == |ps| % size
              && |Chunks(ps, size)| * size + |Pending(ps, size)| == |ps|
    ensures size <= 0 ==> Chunks(ps, size) == [] && Pending(ps, size) == ps
  {
    if size >= 1 {
      ChunksCover(ps, size);
      DivUnique(|ps|, size, |Chunks(ps, size)|, |Pending(ps, size)|);
    }
  }

  /** Record `k` is built from predictions k*size .. k*size+size-1, in input order. */
  lemma {:induction false} ChunkAt(ps: seq<Prediction>, size: int, k: nat)
    requires k < |Chunks(ps, size)|
    ensures size >= 1 && k * size + size <= |ps|
    ensures Chunks(ps, size)[k] == ToRecord(ps[k * size..k * size + size])
    decreases k
  {
    if k > 0 {
      ChunkAt(ps[size..], size, k - 1);
      assert size + (k - 1) * size == k * size;
      assert ps[size..][(k - 1) * size..(k - 1) * size + size] == ps[k * size..k * size + size];
    }
  }

  /**
   * Pixel `i` of record `k` holds the first-maximum class index and the
   * first five scores of prediction k*size+i, and every field of the record
   * has one entry per pixel of the patch.
   */
  lemma RecordFields(ps: seq<Prediction>, size: int, k: nat, i: nat)
    requires AllWellFormed(ps) && k < |Chunks(ps, size)| && i < size
    ensures k * size + i < |ps|
    ensures var r := Chunks(ps, size)[k]; var s := ps[k * size + i].scores;
            FieldsHaveLength(r, size)
            && r.prediction[i] == Argmax(s)
            && r.croplandEtc[i] == s[0] && r.rice[i] == s[1] && r.forest[i] == s[2]
            && r.urban[i] == s[3] && r.othersEtc[i] == s[4]
  {
    ChunkAt(ps, size, k);
    var chunk := ps[k * size..k * size + size];
    assert chunk[i] == ps[k * size + i];
    assert WellFormed(ps[k * size + i]);
  }

  /**
   * A stream of exactly `patches` times width*height predictions yields
   * exactly `patches` records and leaves nothing pending.
   */
  lemma ExactStream(ps: seq<Prediction>, width: int, height: int, patches: nat)
    requires width * height >= 1 && |ps| == patches * (width * height)
    ensures |Chunks(ps, width * height)| == patches
    ensures Pending(ps, width * height) == []
  {
    ChunksCount(ps, width * height);
    DivUnique(|ps|, width * height, patches, 0);
  }

  /**
   * The progress lines printed while `m` records are written name the
   * patches 100, 200, ..., in order, one for every multiple of 100 up to m.
   */
  lemma {:induction false} MilestonesClosed(m: nat)
    ensures |Milestones(m)| == m / ProgressEvery
    ensures forall i :: 0 <= i < |Milestones(m)| ==> Milestones(m)[i] == ProgressEvery * (i + 1)
  {
    if m > 0 {
      MilestonesClosed(m - 1);
    }
  }
}
