/**
 * The writing loop of workflow/v2/5.prediction_dnn.py: six parallel buffers
 * (class index and five class scores) are appended to once per prediction;
 * when they hold one patch worth of pixels they are written out as one
 * record, emptied, and the patch counter advances.
 */
module PatchWriter {
  import opened Wrappers
  import opened PatchSpec

  /** What one step of the loop does with one prediction. */
  datatype FeedStatus =
    | Accepted
    | EmptyScores   // numpy's argmax raises on an empty row
    | MissingScore  // the row has fewer than five scores: an index error

  /**
   * What stops the whole run: the index of the offending prediction, and the
   * records already handed to the writer before it.
   */
  datatype RunError =
    | EmptyPrediction(index: nat, written: seq<Record>)
    | ShortPrediction(index: nat, written: seq<Record>)

  /** What the run leaves behind: the records handed to the writer and the progress lines printed. */
  datatype RunOutput = RunOutput(records: seq<Record>, progress: seq<int>)

  /** The buffers right after they are cleared. */
  const EmptyBuffers := Record([], [], [], [], [], [])

  /** Everything the loop keeps between iterations, apart from the predictions themselves. */
  datatype WriterState = WriterState(buffers: Record, curPatch: int, written: seq<Record>, progress: seq<int>)

  /** The state before the first prediction: empty buffers, patch 1, nothing written. */
  const Start := WriterState(EmptyBuffers, 1, [], [])

  /**
   * One trip through the loop body for a prediction with all five scores:
   * its pixel joins the buffers; if that fills the patch, the progress line
   * for the current patch is printed when due, the buffers become one more
   * record and are emptied, and the counter advances.
   */
  function Step(s: WriterState, size: int, p: Prediction): WriterState
  {
    var b := AddPixel(s.buffers, p);
    if |b.prediction| == size then
      WriterState(EmptyBuffers, s.curPatch + 1, s.written + [b],
                  s.progress + (if s.curPatch % ProgressEvery == 0 then [s.curPatch] else []))
    else
      WriterState(b, s.curPatch, s.written, s.progress)
  }

  /** The state after the loop body has run once for each prediction of `ps`, in order. */
  function Run(ps: seq<Prediction>, size: int): WriterState
    decreases |ps|
  {
    if |ps| == 0 then Start
    else Step(Run(ps[..|ps| - 1], size), size, ps[|ps| - 1])
  }

  /**
   * The state the specification predicts after the stream `ps`: the records
   * written are its complete patches, the buffers hold the pixels of the
   * pending predictions, the counter is one past the records written, and a
   * progress line has been printed for every hundredth record.
   */
  function Expected(ps: seq<Prediction>, size: int): WriterState
  {
    var records := Chunks(ps, size);
    WriterState(ToRecord(Pending(ps, size)), |records| + 1, records, Milestones(|records|))
  }

  lemma RunSnoc(ps: seq<Prediction>, size: int, p: Prediction)
    ensures Run(ps + [p], size) == Step(Run(ps, size), size, p)
  {
    assert (ps + [p])[..|ps|] == ps;
  }

  /** The predicted state moves by one loop step when one prediction is added. */
  lemma ExpectedSnoc(ps: seq<Prediction>, size: int, p: Prediction)
    ensures Expected(ps + [p], size) == Step(Expected(ps, size), size, p)
  {
    ChunksStep(ps, size, p);
    var pending, records := Pending(ps, size), Chunks(ps, size);
    ToRecordSnoc(pending, p);
    var b := AddPixel(ToRecord(pending), p);
    var s := Expected(ps, size);
    assert s.buffers == ToRecord(pending) && s.curPatch == |records| + 1;
    assert |b.prediction| == |pending| + 1;
    if size >= 1 && |pending| + 1 == size {
      assert Chunks(ps + [p], size) == records + [b];
      assert ToRecord(Pending(ps + [p], size)) == EmptyBuffers;
      assert Milestones(|records| + 1) == s.progress + (if s.curPatch % ProgressEvery == 0 then [s.curPatch] else []);
    } else {
      assert Chunks(ps + [p], size) == records;
      assert ToRecord(Pending(ps + [p], size)) == b;
    }
  }

  /** The loop computes the specification, on every prefix of the stream. */
  lemma {:induction false} RunIsChunks(ps: seq<Prediction>, size: int)
    ensures Run(ps, size) == Expected(ps, size)
    decreases |ps|
  {
    if |ps| > 0 {
      var qs, p := ps[..|ps| - 1], ps[|ps| - 1];
      assert ps == qs + [p];
      RunIsChunks(qs, size);
      RunSnoc(qs, size, p);
      ExpectedSnoc(qs, size, p);
    }
  }

  /** The six buffers always have one length, and it stays below the patch size. */
  lemma RunShape(ps: seq<Prediction>, size: int)
    ensures var b := Run(ps, size).buffers;
            FieldsHaveLength(b, |b.prediction|) && (size >= 1 ==> |b.prediction| < size)
  {
    RunIsChunks(ps, size);
  }

  class PatchAssembler {
    const patchWidth: int
    const patchHeight: int
    /** Only used in the text of the progress line. */
    const totalPatches: int
    /** `patch_width * patch_height`: the number of predictions in one patch. */
    const patchSize: int

    /** `patch`: its six lists, one per record field, in the order of the source. */
    var patch: Record

    /** `cur_patch`: the number of the patch being filled. */
    var curPatch: int
    /** The records passed to `writer.write`, in order. */
    var written: seq<Record>
    /** The patch numbers named by the "Done with patch" lines, in order. */
    var progress: seq<int>

    /** Every prediction fed so far. */
    ghost var consumed: seq<Prediction>

    function State(): WriterState
      reads this
    {
      WriterState(patch, curPatch, written, progress)
    }

    /** The state is the one the loop reaches on the predictions consumed so far. */
    ghost predicate Valid()
      reads this
    {
      State() == Run(consumed, patchSize)
    }

    constructor (width: int, height: int, patches: int)
      ensures patchWidth == width && patchHeight == height && totalPatches == patches
      ensures patchSize == width * height
      ensures Valid() && consumed == [] && State() == Start
    {
      patchWidth, patchHeight, totalPatches := width, height, patches;
      patchSize := width * height;
      patch := EmptyBuffers;
      curPatch := 1;
      written, progress := [], [];
      consumed := [];
    }

    /**
     * One iteration of the loop. A prediction without five scores raises
     * before anything observable happens, and the run ends there.
     */
    method Feed(p: Prediction) returns (status: FeedStatus)
      requires Valid()
      modifies this
      ensures Valid()
      ensures status == (if |p.scores| == 0 then EmptyScores
                         else if |p.scores| < ScoreFields then MissingScore
                         else Accepted)
      ensures status != Accepted ==> unchanged(this)
      ensures status == Accepted ==>
                consumed == old(consumed) + [p] && State() == Step(old(State()), patchSize, p)
    {
      if |p.scores| == 0 {
        return EmptyScores;
      }
      if |p.scores| < ScoreFields {
        return MissingScore;
      }
      status := Accepted;
      ghost var consumed0, state0 := consumed, State();
      var k := Argmax(p.scores);
      patch := Record(patch.prediction + [k], patch.croplandEtc + [p.scores[0]],
                      patch.rice + [p.scores[1]], patch.forest + [p.scores[2]],
                      patch.urban + [p.scores[3]], patch.othersEtc + [p.scores[4]]);
      if |patch.prediction| == patchSize {
        if curPatch % ProgressEvery == 0 {
          progress := progress + [curPatch];
        }
        written := written + [patch];
        patch := EmptyBuffers;
        curPatch := curPatch + 1;
      }
      consumed := consumed + [p];
      RunSnoc(consumed0, patchSize, p);
    }
  }

  /**
   * The whole loop over `predictions`, followed by closing the writer. It
   * either returns every record written and every progress line, or stops
   * at the first prediction that lacks a score, after the complete patches
   * before it have been written.
   */
  method WritePredictions(patchWidth: int, patchHeight: int, totalPatches: int, predictions: seq<Prediction>)
    returns (r: Result<RunOutput, RunError>)
    ensures r.Ok? <==> AllWellFormed(predictions)
    ensures r.Ok? ==> r.value.records == Chunks(predictions, patchWidth * patchHeight)
                      && r.value.progress == Milestones(|r.value.records|)
    ensures r.Ok? && patchWidth * patchHeight >= 1 ==>
              |r.value.records| == |predictions| / (patchWidth * patchHeight)
    ensures r.Ok? && patchWidth * patchHeight <= 0 ==> r.value.records == []
    ensures r.Err? ==>
              var i := r.error.index;
              i < |predictions| && !WellFormed(predictions[i])
              && (forall j :: 0 <= j < i ==> WellFormed(predictions[j]))
              && (r.error.EmptyPrediction? <==> |predictions[i].scores| == 0)
              && r.error.written == Chunks(predictions[..i], patchWidth * patchHeight)
  {
    var assembler := new PatchAssembler(patchWidth, patchHeight, totalPatches);
    var i := 0;
    while i < |predictions|
      invariant 0 <= i <= |predictions|
      invariant assembler.Valid() && assembler.consumed == predictions[..i]
      invariant forall j :: 0 <= j < i ==> WellFormed(predictions[j])
      invariant assembler.patchSize == patchWidth * patchHeight
    {
      var status := assembler.Feed(predictions[i]);
      if status != Accepted {
        RunIsChunks(predictions[..i], patchWidth * patchHeight);
        if status == EmptyScores {
          return Err(EmptyPrediction(i, assembler.written));
        } else {
          return Err(ShortPrediction(i, assembler.written));
        }
      }
      assert predictions[..i + 1] == predictions[..i] + [predictions[i]];
      i := i + 1;
    }
    assert predictions[..i] == predictions;
    RunIsChunks(predictions, patchWidth * patchHeight);
    ChunksCount(predictions, patchWidth * patchHeight);
    r := Ok(RunOutput(assembler.written, assembler.progress));
  }
}
