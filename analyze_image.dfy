/** The result record of the `analyzeImage` server flow. The flow itself (prompt and model call)
    is an external capability: the page only sees the record it resolves with, or what it throws. */
module AnalyzeImage {

  /** `AnalyzeImageOutput`: the labels the vision model identified, one list per category. */
  datatype AnalyzeImageOutput = AnalyzeImageOutput(objects: seq<string>, people: seq<string>, scenes: seq<string>)

  /** An output in which the model identified nothing at all. */
  const NoFindings := AnalyzeImageOutput([], [], [])
}
