/** The part of an association request that presentation context
    negotiation reads and sets: the AE titles, the remote implementation,
    the asynchronous operations flag and the presentation contexts, each
    with its abstract syntax, proposed transfer syntaxes and result.
    UIDs are compared by their text. */
module Association {
  import opened Ints
  import opened Wrappers

  /** The result of a presentation context (DICOM PS3.8 section 9.3.3.2:
      acceptance, user rejection, no reason, abstract syntax not supported,
      transfer syntaxes not supported); `Proposed` is a context not yet
      answered. */
  datatype PresContextResult =
    | Proposed
    | Accept
    | RejectUser
    | RejectNoReason
    | RejectAbstractSyntaxNotSupported
    | RejectTransferSyntaxesNotSupported
  {
    /** The result field of the A-ASSOCIATE-AC presentation context item. */
    function Code(): (c: Option<uint8>)
      ensures c.None? <==> this == Proposed
      ensures c == Some(0) <==> this == Accept
    {
      match this
      case Proposed => None
      case Accept => Some(0)
      case RejectUser => Some(1)
      case RejectNoReason => Some(2)
      case RejectAbstractSyntaxNotSupported => Some(3)
      case RejectTransferSyntaxesNotSupported => Some(4)
    }
  }

  /** The five answers have five different codes. */
  lemma CodesDistinct(a: PresContextResult, b: PresContextResult)
    requires a.Code() == b.Code()
    ensures a == b
  {
  }

  /** A presentation context: its id, abstract syntax UID, proposed
      transfer syntax UIDs in proposal order, result, and the transfer
      syntax it was accepted with. */
  datatype PresContext = PresContext(
    id: uint8,
    abstractSyntax: string,
    transfers: seq<string>,
    result: PresContextResult,
    accepted: Option<string>)

  /** `SetResult(result)` and `SetResult(result, ts)`. */
  function SetResult(pc: PresContext, result: PresContextResult, ts: Option<string>): PresContext
  {
    pc.(result := result, accepted := ts)
  }

  /** `DcmAssociate`, reduced to what the negotiation reads and sets. */
  class DcmAssociate {
    const calledAE: string
    const callingAE: string
    const implementationClass: string
    const implementationVersion: string
    var negotiateAsyncOps: bool
    var contexts: seq<PresContext>

    constructor (called: string, calling: string, implClass: string, implVersion: string,
                 asyncOps: bool, proposed: seq<PresContext>)
      ensures calledAE == called && callingAE == calling
      ensures implementationClass == implClass && implementationVersion == implVersion
      ensures negotiateAsyncOps == asyncOps && contexts == proposed
    {
      calledAE, callingAE := called, calling;
      implementationClass, implementationVersion := implClass, implVersion;
      negotiateAsyncOps, contexts := asyncOps, proposed;
    }
  }
}
