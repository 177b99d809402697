/** `GPXProcessingProgress`: the immutable progress snapshot, its fraction
    completed and the copy-with-changes used to derive the next snapshot. */
module Progress {
  import opened Wrappers
  import opened GpxModel

  datatype Stage = Queued | Reading | Parsing | Compressing | Writing | Completed | Failed

  /** A snapshot; the wall-clock timestamp is not part of this model. */
  datatype Progress = Progress(
    id: nat,
    stage: Stage,
    inputUrl: Url,
    outputUrl: Option<Url>,
    processedBytes: int,
    totalBytes: int,
    processedSegments: int,
    totalSegments: Option<int>,
    processedPoints: int,
    writtenPoints: int,
    throughput: real,
    message: Option<string>,
    error: Option<Failure>)
  {
    /** `fractionCompleted`: 0 without a known size, else the processed share
        capped at 1. */
    function FractionCompleted(): (f: real)
      ensures totalBytes <= 0 ==> f == 0.0
      ensures f <= 1.0
      ensures processedBytes >= 0 ==> f >= 0.0
      ensures 0 < totalBytes && processedBytes <= totalBytes ==> f * totalBytes as real == processedBytes as real
      ensures 0 < totalBytes <= processedBytes ==> f == 1.0
    {
      if totalBytes <= 0 then 0.0
      else
        var share := processedBytes as real / totalBytes as real;
        if share < 1.0 then share else 1.0
    }

    /** `updating(...)`: every argument left out (`None`) keeps the current
        value; `Some(v)` replaces it, and for the doubly optional fields
        `Some(None)` clears it. Identity, locations and size never change. */
    function Updating(
      stage: Option<Stage> := None,
      processedBytes: Option<int> := None,
      processedSegments: Option<int> := None,
      totalSegments: Option<Option<int>> := None,
      processedPoints: Option<int> := None,
      writtenPoints: Option<int> := None,
      throughput: Option<real> := None,
      message: Option<Option<string>> := None,
      error: Option<Option<Failure>> := None): (p: Progress)
      ensures p.id == this.id && p.inputUrl == this.inputUrl
      ensures p.outputUrl == this.outputUrl && p.totalBytes == this.totalBytes
      ensures stage.Some? ==> p.stage == stage.value
      ensures stage.None? ==> p.stage == this.stage
      ensures processedBytes.Some? ==> p.processedBytes == processedBytes.value
      ensures processedBytes.None? ==> p.processedBytes == this.processedBytes
      ensures processedSegments.Some? ==> p.processedSegments == processedSegments.value
      ensures processedSegments.None? ==> p.processedSegments == this.processedSegments
      ensures totalSegments.Some? ==> p.totalSegments == totalSegments.value
      ensures totalSegments.None? ==> p.totalSegments == this.totalSegments
      ensures processedPoints.Some? ==> p.processedPoints == processedPoints.value
      ensures processedPoints.None? ==> p.processedPoints == this.processedPoints
      ensures writtenPoints.Some? ==> p.writtenPoints == writtenPoints.value
      ensures writtenPoints.None? ==> p.writtenPoints == this.writtenPoints
      ensures throughput.Some? ==> p.throughput == throughput.value
      ensures throughput.None? ==> p.throughput == this.throughput
      ensures message.Some? ==> p.message == message.value
      ensures message.None? ==> p.message == this.message
      ensures error.Some? ==> p.error == error.value
      ensures error.None? ==> p.error == this.error
    {
      Progress(
        id,
        stage.GetOr(this.stage),
        inputUrl,
        outputUrl,
        processedBytes.GetOr(this.processedBytes),
        totalBytes,
        processedSegments.GetOr(this.processedSegments),
        totalSegments.GetOr(this.totalSegments),
        processedPoints.GetOr(this.processedPoints),
        writtenPoints.GetOr(this.writtenPoints),
        throughput.GetOr(this.throughput),
        message.GetOr(this.message),
        error.GetOr(this.error))
    }
  }

  /** Updating with no argument changes nothing, and updating twice keeps
      the later value of each field given twice. */
  lemma UpdatingLaws(p: Progress, s1: Stage, s2: Stage, m: Option<string>)
    ensures p.Updating() == p
    ensures p.Updating(stage := Some(s1)).Updating(stage := Some(s2)) == p.Updating(stage := Some(s2))
    ensures p.Updating(message := Some(m)).Updating() == p.Updating(message := Some(m))
    ensures p.Updating(message := Some(None)).message == None
  {
  }
}
