/**
 * Buffering of a request body: the form handlers append every received
 * chunk to a string and parse it only once the stream has ended.
 */
module Chunks {
  import Strings

  /** The 'data' callbacks: start from the empty string and append each chunk in arrival order. */
  method ReadBody(chunks: seq<string>) returns (rawdata: string)
    ensures rawdata == Strings.Concat(chunks)
  {
    rawdata := "";
    var i := 0;
    while i < |chunks|
      invariant 0 <= i <= |chunks|
      invariant rawdata == Strings.Concat(chunks[..i])
    {
      assert chunks[..i + 1][..i] == chunks[..i];
      rawdata := rawdata + chunks[i];
      i := i + 1;
    }
    assert chunks[..|chunks|] == chunks;
  }
}
