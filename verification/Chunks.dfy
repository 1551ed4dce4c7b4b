/** The retrieved chunk that the agents service ranks and merges. */
module Chunks {
  datatype RetrievedChunk = RetrievedChunk(
    chunkId: string,
    text: string,
    score: real,
    sourceType: string,
    recordId: string,
    intentId: string,
    traceId: string,
    tenantId: string)

  function ScoreOf(c: RetrievedChunk): real { c.score }
}
