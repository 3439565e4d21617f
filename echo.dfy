/** The C-ECHO service provider of trunk/Dicom/Network/Server/CEchoService.cs:
    it accepts the Verification SOP class in Implicit or Explicit VR Little
    Endian, rejects everything else, always accepts the association, and
    answers every C-ECHO request with success. The messages it sends are
    recorded in `sent` in place of the network. */
module EchoService {
  import opened Ints
  import opened Wrappers
  import A = Association
  import UidTrunk
  import TS = TransferSyntaxes
  import Command

  /** `DcmStatus.Success`. */
  const StatusSuccess: uint16 := 0x0000

  /** What the service sends. */
  datatype Message =
    | AssociateAccept(contexts: seq<A.PresContext>)
    | CEchoResponse(presentationId: uint8, messageId: uint16, status: uint16)

  /** `HasTransfer`: the transfer syntax is among the proposed ones. */
  predicate HasTransfer(pc: A.PresContext, ts: TS.DcmTS) {
    ts.uid.uid in pc.transfers
  }

  /** The answer to one presentation context (lines 39-51). */
  function EchoNegotiate(pc: A.PresContext): A.PresContext
  {
    if pc.abstractSyntax == UidTrunk.Verification.uid then
      if HasTransfer(pc, TS.ImplicitVRLittleEndian) then
        A.SetResult(pc, A.Accept, Some(TS.ImplicitVRLittleEndian.uid.uid))
      else if HasTransfer(pc, TS.ExplicitVRLittleEndian) then
        A.SetResult(pc, A.Accept, Some(TS.ExplicitVRLittleEndian.uid.uid))
      else A.SetResult(pc, A.RejectTransferSyntaxesNotSupported, None)
    else A.SetResult(pc, A.RejectAbstractSyntaxNotSupported, None)
  }

  /** A context is accepted exactly when it proposes Verification in
      Implicit or Explicit VR Little Endian; it is then accepted with a
      proposed one of the two, Implicit VR whenever that is proposed; any
      other abstract syntax is rejected as such; id and proposals are kept. */
  lemma EchoNegotiateAnswers(pc: A.PresContext)
    ensures var r := EchoNegotiate(pc);
      && r.id == pc.id && r.abstractSyntax == pc.abstractSyntax && r.transfers == pc.transfers
      && (r.result == A.Accept <==>
            pc.abstractSyntax == UidTrunk.Verification.uid
            && (UidTrunk.ImplicitVRLittleEndian.uid in pc.transfers || UidTrunk.ExplicitVRLittleEndian.uid in pc.transfers))
      && (r.result == A.Accept ==>
            r.accepted.Some? && r.accepted.value in pc.transfers
            && (r.accepted.value == UidTrunk.ImplicitVRLittleEndian.uid
                <==> UidTrunk.ImplicitVRLittleEndian.uid in pc.transfers)
            && (r.accepted.value == UidTrunk.ImplicitVRLittleEndian.uid
                || r.accepted.value == UidTrunk.ExplicitVRLittleEndian.uid))
      && (r.result != A.Accept ==> r.accepted.None?)
      && (pc.abstractSyntax != UidTrunk.Verification.uid ==> r.result == A.RejectAbstractSyntaxNotSupported)
  {
    assert UidTrunk.ImplicitVRLittleEndian.uid != UidTrunk.ExplicitVRLittleEndian.uid by {
      assert |UidTrunk.ImplicitVRLittleEndian.uid| != |UidTrunk.ExplicitVRLittleEndian.uid|;
    }
  }

  /** `CEchoService`: its log id and the messages it has sent. */
  class CEchoService {
    var logId: string
    var sent: seq<Message>

    constructor ()
      ensures logId == "C-Echo SCP" && sent == []
    {
      logId, sent := "C-Echo SCP", [];
    }

    /** `OnReceiveAssociateRequest`: asynchronous operations are turned
        off, every presentation context is answered, and the association
        is accepted. */
    method OnReceiveAssociateRequest(association: A.DcmAssociate)
      modifies this, association
      ensures !association.negotiateAsyncOps
      ensures |association.contexts| == |old(association.contexts)|
      ensures forall i :: 0 <= i < |association.contexts| ==>
        association.contexts[i] == EchoNegotiate(old(association.contexts)[i])
      ensures logId == association.callingAE
      ensures sent == old(sent) + [AssociateAccept(association.contexts)]
    {
      association.negotiateAsyncOps := false;
      logId := association.callingAE;
      var i := 0;
      while i < |association.contexts|
        invariant 0 <= i <= |association.contexts| == |old(association.contexts)|
        invariant forall j :: 0 <= j < i ==> association.contexts[j] == EchoNegotiate(old(association.contexts)[j])
        invariant forall j :: i <= j < |association.contexts| ==> association.contexts[j] == old(association.contexts)[j]
        invariant !association.negotiateAsyncOps && logId == association.callingAE && sent == old(sent)
      {
        var pc := association.contexts[i];
        if pc.abstractSyntax == UidTrunk.Verification.uid {
          if HasTransfer(pc, TS.ImplicitVRLittleEndian) {
            pc := A.SetResult(pc, A.Accept, Some(TS.ImplicitVRLittleEndian.uid.uid));
          } else if HasTransfer(pc, TS.ExplicitVRLittleEndian) {
            pc := A.SetResult(pc, A.Accept, Some(TS.ExplicitVRLittleEndian.uid.uid));
          } else {
            pc := A.SetResult(pc, A.RejectTransferSyntaxesNotSupported, None);
          }
        } else {
          pc := A.SetResult(pc, A.RejectAbstractSyntaxNotSupported, None);
        }
        association.contexts := association.contexts[i := pc];
        i := i + 1;
      }
      sent := sent + [AssociateAccept(association.contexts)];
    }

    /** `OnReceiveCEchoRequest`: a success response on the same
        presentation context to the same message id, whatever the
        priority. */
    method OnReceiveCEchoRequest(presentationId: uint8, messageId: uint16, priority: Command.Priority)
      modifies this
      ensures sent == old(sent) + [CEchoResponse(presentationId, messageId, StatusSuccess)]
      ensures logId == old(logId)
    {
      sent := sent + [CEchoResponse(presentationId, messageId, StatusSuccess)];
    }
  }
}
