/** `DcmAssociateProfile` of Dicom/Network/DcmAssociateProfile.cs: a
    profile names the called and calling AE titles and the remote
    implementation it applies to (each possibly with the wildcards '*' and
    '?'), and the transfer and abstract syntaxes it accepts. `Find` picks
    the most specific registered profile for an association; `Apply`
    answers each presentation context of the association.

    `Wildcard.Match` is outside this model and comes in as a parameter. */
module Profiles {
  import opened Wrappers
  import Text
  import UidOld
  import A = Association

  /** The four wildcard patterns of a profile. */
  datatype Criteria = Criteria(calledAE: string, callingAE: string, remoteImplUid: string, remoteVersion: string)

  /** A pattern holds a wildcard. */
  predicate Wild(s: string) {
    '*' in s || '?' in s
  }

  /** `GetWeight(matchImplementation)` as written: `m && A || B` binds as
      `(m && A) || B`, so a '?' in the remote implementation UID or
      version counts even when implementations are not matched. */
  function WeightAsWritten(c: Criteria, matchImplementation: bool): nat
  {
    (if Wild(c.calledAE) then 1 else 0) + (if Wild(c.callingAE) then 1 else 0)
    + (if (matchImplementation && '*' in c.remoteImplUid) || '?' in c.remoteImplUid then 1 else 0)
    + (if (matchImplementation && '*' in c.remoteVersion) || '?' in c.remoteVersion then 1 else 0)
  }

  /** `GetWeight` as evidently intended: the number of matched patterns
      that hold a wildcard; the implementation patterns count only when
      implementations are matched. */
  function Weight(c: Criteria, matchImplementation: bool): (w: nat)
    ensures w <= (if matchImplementation then 4 else 2)
    ensures w == 0 <==> !Wild(c.calledAE) && !Wild(c.callingAE)
                        && (matchImplementation ==> !Wild(c.remoteImplUid) && !Wild(c.remoteVersion))
  {
    (if Wild(c.calledAE) then 1 else 0) + (if Wild(c.callingAE) then 1 else 0)
    + (if matchImplementation && Wild(c.remoteImplUid) then 1 else 0)
    + (if matchImplementation && Wild(c.remoteVersion) then 1 else 0)
  }

  /** The two weights agree when implementations are matched, and
      whenever the implementation patterns hold no '?'; a profile whose
      remote implementation UID is "1.2?" weighs 1 as written but 0 when
      implementations are not matched. */
  lemma WeightAsWrittenCountsQuestionMark(c: Criteria, m: bool)
    ensures WeightAsWritten(c, true) == Weight(c, true)
    ensures '?' !in c.remoteImplUid && '?' !in c.remoteVersion ==> WeightAsWritten(c, m) == Weight(c, m)
    ensures var q := Criteria("SCP", "SCU", "1.2?", "1");
      WeightAsWritten(q, false) == 1 && Weight(q, false) == 0
  {
    var q := Criteria("SCP", "SCU", "1.2?", "1");
    assert '?' in q.remoteImplUid && q.remoteImplUid[3] == '?';
    assert !Wild(q.calledAE) && !Wild(q.callingAE) by {
      assert forall i :: 0 <= i < |"SCP"| ==> "SCP"[i] != '*' && "SCP"[i] != '?';
      assert forall i :: 0 <= i < |"SCU"| ==> "SCU"[i] != '*' && "SCU"[i] != '?';
    }
    assert '?' !in q.remoteVersion && '*' !in q.remoteVersion;
  }

  /** Matching implementations only adds weight. */
  lemma WeightGrowsWithImplementation(c: Criteria)
    ensures Weight(c, false) <= Weight(c, true)
    ensures Weight(c, true) - Weight(c, false) == (if Wild(c.remoteImplUid) then 1 else 0) + (if Wild(c.remoteVersion) then 1 else 0)
  {
  }

  /** A profile applies to an association when its AE title patterns
      match, and, when implementations are matched, its implementation
      patterns match too. */
  predicate Applies(c: Criteria, called: string, calling: string, implClass: string, implVersion: string,
                    matchImplementation: bool, wildcard: (string, string) -> bool)
  {
    && wildcard(c.calledAE, called) && wildcard(c.callingAE, calling)
    && (matchImplementation ==> wildcard(c.remoteImplUid, implClass) && wildcard(c.remoteVersion, implVersion))
  }

  // ---------------------------------------------------------- Apply

  /** The first proposed transfer syntax, in proposal order, that is
      supported. */
  function FirstSupported(transfers: seq<string>, supported: seq<string>): Option<string>
    decreases |transfers|
  {
    if |transfers| == 0 then None
    else if transfers[0] in supported then Some(transfers[0])
    else FirstSupported(transfers[1..], supported)
  }

  /** The transfer syntax chosen is proposed and supported and no earlier
      proposal is supported; none is chosen exactly when no proposal is
      supported. */
  lemma {:induction false} FirstSupportedIsFirst(transfers: seq<string>, supported: seq<string>)
    ensures FirstSupported(transfers, supported).Some? ==>
      exists j :: (0 <= j < |transfers| && transfers[j] == FirstSupported(transfers, supported).value
        && transfers[j] in supported && forall k :: 0 <= k < j ==> transfers[k] !in supported)
    ensures FirstSupported(transfers, supported).None? <==> forall k :: 0 <= k < |transfers| ==> transfers[k] !in supported
    decreases |transfers|
  {
    if |transfers| > 0 && transfers[0] !in supported {
      var rest := transfers[1..];
      FirstSupportedIsFirst(rest, supported);
      if FirstSupported(rest, supported).Some? {
        var j :| 0 <= j < |rest| && rest[j] == FirstSupported(rest, supported).value
          && rest[j] in supported && forall k :: 0 <= k < j ==> rest[k] !in supported;
        assert transfers[j + 1] == rest[j];
        forall k | 0 <= k < j + 1 ensures transfers[k] !in supported {
          if k > 0 { assert transfers[k] == rest[k - 1]; }
        }
      } else {
        forall k | 0 <= k < |transfers| ensures transfers[k] !in supported {
          if k > 0 { assert transfers[k] == rest[k - 1]; }
        }
      }
    }
  }

  /** One presentation context after `Apply` (lines 76-90): a known
      abstract syntax is accepted with the first supported transfer syntax,
      else rejected for its transfer syntaxes unless it was already
      accepted; an unknown one is rejected for its abstract syntax. */
  function Negotiate(pc: A.PresContext, abstracts: seq<string>, supported: seq<string>): A.PresContext
  {
    if pc.abstractSyntax in abstracts then
      match FirstSupported(pc.transfers, supported)
      case Some(ts) => A.SetResult(pc, A.Accept, Some(ts))
      case None =>
        if pc.result == A.Accept then pc
        else A.SetResult(pc, A.RejectTransferSyntaxesNotSupported, None)
    else A.SetResult(pc, A.RejectAbstractSyntaxNotSupported, None)
  }

  /** Every context gets an answer and keeps its id and proposals; an
      unknown abstract syntax is always rejected; a context that was not
      accepted before is accepted exactly when one of its proposals is
      supported, and then with a proposed, supported transfer syntax. */
  lemma NegotiateAnswers(pc: A.PresContext, abstracts: seq<string>, supported: seq<string>)
    ensures var r := Negotiate(pc, abstracts, supported);
      && r.result != A.Proposed
      && r.id == pc.id && r.abstractSyntax == pc.abstractSyntax && r.transfers == pc.transfers
      && (pc.abstractSyntax !in abstracts ==> r.result == A.RejectAbstractSyntaxNotSupported)
      && (pc.result != A.Accept ==>
            (r.result == A.Accept <==> pc.abstractSyntax in abstracts && exists t :: t in pc.transfers && t in supported))
      && (pc.result != A.Accept && r.result == A.Accept ==>
            r.accepted.Some? && r.accepted.value in pc.transfers && r.accepted.value in supported)
  {
    FirstSupportedIsFirst(pc.transfers, supported);
  }

  // ------------------------------------------------------- profiles

  /** A profile: its name, patterns and accepted syntaxes. */
  class DcmAssociateProfile {
    var name: string
    var criteria: Criteria
    var transferSyntaxes: seq<string>
    var abstractSyntaxes: seq<string>

    constructor (profileName: string, patterns: Criteria)
      ensures name == profileName && criteria == patterns
      ensures transferSyntaxes == [] && abstractSyntaxes == []
    {
      name, criteria := profileName, patterns;
      transferSyntaxes, abstractSyntaxes := [], [];
    }

    /** `SetDefault`: the supported transfer syntaxes and storage classes. */
    method SetDefault(statics: Statics)
      modifies this
      ensures transferSyntaxes == statics.supportedTransferSyntaxes
      ensures abstractSyntaxes == statics.supportedStorageSyntaxes
      ensures name == old(name) && criteria == old(criteria)
    {
      transferSyntaxes := statics.supportedTransferSyntaxes;
      abstractSyntaxes := statics.supportedStorageSyntaxes;
    }

    /** `SetDefaultStorage`, as written: the abstract syntaxes are left
        empty and every registered SOP class is appended to the shared
        list of supported storage classes instead. */
    method SetDefaultStorage(statics: Statics, registered: seq<UidOld.DcmUID>)
      modifies this, statics
      ensures transferSyntaxes == statics.supportedTransferSyntaxes && abstractSyntaxes == []
      ensures statics.supportedStorageSyntaxes == old(statics.supportedStorageSyntaxes) + SopClassUids(registered)
      ensures statics.profiles == old(statics.profiles)
      ensures name == old(name) && criteria == old(criteria)
    {
      transferSyntaxes := statics.supportedTransferSyntaxes;
      abstractSyntaxes := [];
      var i := 0;
      while i < |registered|
        invariant 0 <= i <= |registered|
        invariant statics.supportedStorageSyntaxes == old(statics.supportedStorageSyntaxes) + SopClassUids(registered[..i])
        invariant statics.profiles == old(statics.profiles)
        invariant transferSyntaxes == statics.supportedTransferSyntaxes && abstractSyntaxes == []
        invariant name == old(name) && criteria == old(criteria)
      {
        assert registered[..i + 1][..i] == registered[..i];
        if registered[i].uidType == UidOld.SOPClass {
          statics.supportedStorageSyntaxes := statics.supportedStorageSyntaxes + [registered[i].uid];
        }
        i := i + 1;
      }
      assert registered[..i] == registered;
    }

    /** The inner loop of `Apply`: the first proposed transfer syntax this
        profile supports. */
    method ChooseTransfer(transfers: seq<string>) returns (r: Option<string>)
      ensures r == FirstSupported(transfers, transferSyntaxes)
    {
      var i := 0;
      while i < |transfers|
        invariant 0 <= i <= |transfers|
        invariant FirstSupported(transfers, transferSyntaxes) == FirstSupported(transfers[i..], transferSyntaxes)
      {
        assert transfers[i..][1..] == transfers[i + 1..];
        if transfers[i] in transferSyntaxes {
          return Some(transfers[i]);
        }
        i := i + 1;
      }
      r := None;
    }

    /** `Apply`: each presentation context of the association is answered
        in turn. */
    method Apply(associate: A.DcmAssociate)
      modifies associate
      ensures |associate.contexts| == |old(associate.contexts)|
      ensures forall i :: 0 <= i < |associate.contexts| ==>
        associate.contexts[i] == Negotiate(old(associate.contexts)[i], abstractSyntaxes, transferSyntaxes)
      ensures associate.negotiateAsyncOps == old(associate.negotiateAsyncOps)
    {
      var i := 0;
      while i < |associate.contexts|
        invariant 0 <= i <= |associate.contexts| == |old(associate.contexts)|
        invariant forall j :: 0 <= j < i ==>
          associate.contexts[j] == Negotiate(old(associate.contexts)[j], abstractSyntaxes, transferSyntaxes)
        invariant forall j :: i <= j < |associate.contexts| ==> associate.contexts[j] == old(associate.contexts)[j]
        invariant associate.negotiateAsyncOps == old(associate.negotiateAsyncOps)
      {
        var pc := associate.contexts[i];
        if pc.abstractSyntax in abstractSyntaxes {
          var ts := ChooseTransfer(pc.transfers);
          if ts.Some? {
            pc := A.SetResult(pc, A.Accept, ts);
          }
          if pc.result != A.Accept {
            pc := A.SetResult(pc, A.RejectTransferSyntaxesNotSupported, None);
          }
        } else {
          pc := A.SetResult(pc, A.RejectAbstractSyntaxNotSupported, None);
        }
        associate.contexts := associate.contexts[i := pc];
        i := i + 1;
      }
    }
  }

  /** The UIDs of the registered entries whose description mentions
      "Storage". */
  function StorageUids(registered: seq<UidOld.DcmUID>): (u: seq<string>)
    ensures |u| <= |registered|
    ensures forall x :: x in u ==> exists e :: e in registered && e.uid == x && Text.Contains(e.description, "Storage")
    decreases |registered|
  {
    if |registered| == 0 then []
    else
      var rest := StorageUids(registered[..|registered| - 1]);
      var e := registered[|registered| - 1];
      if Text.Contains(e.description, "Storage") then rest + [e.uid] else rest
  }

  /** The UIDs of the registered SOP classes. */
  function SopClassUids(registered: seq<UidOld.DcmUID>): (u: seq<string>)
    ensures |u| <= |registered|
    ensures forall x :: x in u ==> exists e :: e in registered && e.uid == x && e.uidType == UidOld.SOPClass
    decreases |registered|
  {
    if |registered| == 0 then []
    else
      var rest := SopClassUids(registered[..|registered| - 1]);
      var e := registered[|registered| - 1];
      if e.uidType == UidOld.SOPClass then rest + [e.uid] else rest
  }

  /** The transfer syntaxes profiles support by default, in order. */
  const SupportedTransfers: seq<string> := [
    UidOld.JPEG2000ImageCompressionLosslessOnly.uid,
    UidOld.JPEGLosslessProcess14SV1.uid,
    UidOld.RLELossless.uid,
    UidOld.ExplicitVRLittleEndian.uid,
    UidOld.ImplicitVRLittleEndian.uid,
    UidOld.ExplicitVRBigEndian.uid
  ]

  /** The static members: the supported syntaxes, the registered profiles
      and the generic storage profile. */
  class Statics {
    const supportedTransferSyntaxes: seq<string>
    var supportedStorageSyntaxes: seq<string>
    var profiles: seq<DcmAssociateProfile>
    const genericStorage: DcmAssociateProfile

    /** The static constructor, over the UID registry in registration
        order: Verification and every storage class are supported, and the
        generic profile matches everything with the defaults. */
    constructor (registered: seq<UidOld.DcmUID>)
      ensures supportedTransferSyntaxes == SupportedTransfers
      ensures supportedStorageSyntaxes == [UidOld.VerificationSOPClass.uid] + StorageUids(registered)
      ensures profiles == [] && fresh(genericStorage)
      ensures genericStorage.name == "Generic Profile" && genericStorage.criteria == Criteria("*", "*", "*", "*")
      ensures genericStorage.transferSyntaxes == SupportedTransfers
      ensures genericStorage.abstractSyntaxes == supportedStorageSyntaxes
    {
      supportedTransferSyntaxes := SupportedTransfers;
      supportedStorageSyntaxes := [UidOld.VerificationSOPClass.uid] + StorageUids(registered);
      profiles := [];
      genericStorage := new DcmAssociateProfile("Generic Profile", Criteria("*", "*", "*", "*"));
      new;
      genericStorage.SetDefault(this);
    }

    /** `AddProfile(profile)`: a non-null profile is registered. */
    method AddProfile(profile: Option<DcmAssociateProfile>)
      modifies this
      ensures profiles == old(profiles) + (if profile.Some? then [profile.value] else [])
      ensures supportedStorageSyntaxes == old(supportedStorageSyntaxes)
    {
      if profile.Some? {
        profiles := profiles + [profile.value];
      }
    }

    /** `Find`: among the registered profiles that apply to the
        association, one of least weight; the generic profile when none
        applies. */
    method Find(associate: A.DcmAssociate, matchImplementation: bool, wildcard: (string, string) -> bool)
      returns (r: DcmAssociateProfile)
      ensures (forall p :: p in profiles ==> !Applies(p.criteria, associate.calledAE, associate.callingAE,
                 associate.implementationClass, associate.implementationVersion, matchImplementation, wildcard))
              ==> r == genericStorage
      ensures (exists p :: p in profiles && Applies(p.criteria, associate.calledAE, associate.callingAE,
                 associate.implementationClass, associate.implementationVersion, matchImplementation, wildcard))
              ==> (&& r in profiles
                   && Applies(r.criteria, associate.calledAE, associate.callingAE,
                        associate.implementationClass, associate.implementationVersion, matchImplementation, wildcard)
                   && forall p :: (p in profiles && Applies(p.criteria, associate.calledAE, associate.callingAE,
                        associate.implementationClass, associate.implementationVersion, matchImplementation, wildcard)
                      ==> Weight(r.criteria, matchImplementation) <= Weight(p.criteria, matchImplementation)))
    {
      var candidates: seq<DcmAssociateProfile> := [];
      var i := 0;
      while i < |profiles|
        invariant 0 <= i <= |profiles|
        invariant forall c :: (c in candidates ==> c in profiles && Applies(c.criteria, associate.calledAE,
          associate.callingAE, associate.implementationClass, associate.implementationVersion, matchImplementation, wildcard))
        invariant forall j :: (0 <= j < i && Applies(profiles[j].criteria, associate.calledAE, associate.callingAE,
          associate.implementationClass, associate.implementationVersion, matchImplementation, wildcard)
          ==> profiles[j] in candidates)
      {
        var p := profiles[i];
        if Applies(p.criteria, associate.calledAE, associate.callingAE, associate.implementationClass,
                   associate.implementationVersion, matchImplementation, wildcard) {
          candidates := candidates + [p];
        }
        i := i + 1;
      }
      if |candidates| == 0 {
        return genericStorage;
      }
      r := candidates[0];
      var k := 1;
      while k < |candidates|
        invariant 1 <= k <= |candidates|
        invariant r in candidates
        invariant forall j :: 0 <= j < k ==> Weight(r.criteria, matchImplementation) <= Weight(candidates[j].criteria, matchImplementation)
      {
        if Weight(candidates[k].criteria, matchImplementation) < Weight(r.criteria, matchImplementation) {
          r := candidates[k];
        }
        k := k + 1;
      }
    }
  }
}
