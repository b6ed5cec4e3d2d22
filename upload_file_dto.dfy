/**
  The messages of the streaming upload: the inbound frame and the outbound
  status reply, with the stage enumeration they carry.
*/
module UploadFileDto {
  import opened Wrappers

  /** One inbound frame: the caller's file name and an opaque chunk of bytes. */
  datatype UploadFile = UploadFile(filename: string, chunk: seq<bv8>)

  /** The stage of an upload, a numeric enumeration on the wire. */
  datatype UploadStage = Uploading | Complete | Failed

  /** One outbound reply: the allocated storage name and the stage. */
  datatype UploadStatus = UploadStatus(filename: string, stage: UploadStage)

  /** The number a stage has on the wire (declaration order, from 0). */
  function Ordinal(stage: UploadStage): (n: nat)
    ensures n < 3
  {
    match stage
    case Uploading => 0
    case Complete => 1
    case Failed => 2
  }

  /** The stage a wire number stands for; numbers outside 0..2 stand for none. */
  function FromOrdinal(n: int): (r: Option<UploadStage>)
    ensures r.Some? <==> 0 <= n < 3
    ensures r.Some? ==> Ordinal(r.value) == n
  {
    if n == 0 then Some(Uploading)
    else if n == 1 then Some(Complete)
    else if n == 2 then Some(Failed)
    else None
  }

  /** Decoding the number of a stage gives the stage back, so distinct stages have distinct numbers. */
  lemma OrdinalRoundTrip(stage: UploadStage)
    ensures FromOrdinal(Ordinal(stage)) == Some(stage)
  {
  }
}
