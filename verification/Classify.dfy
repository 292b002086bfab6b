/**
 Whose credential is in the live store when a switch is about to overwrite it.
 A profile lookup counts only for the exact bytes it was made with.
 */
module Classify {
  import opened Prelude
  import opened Json
  import opened Credentials

  datatype Kind =
    | OwnBytes | OwnFamily | OwnRotated
    | Foreign | ForeignSynced
    | Wiped | Alien | KnownForeign | Unresolved

  datatype Slot = Slot(accountId: string, email: Option<string>, orgUuid: Option<string>, credential: Option<Text>)

  datatype Profile = Profile(uuid: string, email: Option<string>, orgUuid: Option<string>)

  /** A profile result together with the live bytes it was requested for. */
  datatype Prefetched = Prefetched(liveCredential: Option<Text>, resolved: Option<Profile>)

  datatype Classified = Classified(kind: Kind, foreignSlotId: Option<string>)

  predicate IsSpace(c: char) { c == ' ' || c == '\t' || c == '\n' || c == '\r' }

  function TrimLeft(s: string): string {
    if s != "" && IsSpace(s[0]) then TrimLeft(s[1..]) else s
  }

  function TrimRight(s: string): string {
    if s != "" && IsSpace(s[|s| - 1]) then TrimRight(s[..|s| - 1]) else s
  }

  function Trim(s: string): string { TrimRight(TrimLeft(s)) }

  function Normalized(field: Option<string>): Option<string> {
    if field.None? || Trim(field.value) == "" then None else Some(Trim(field.value))
  }

  function NormalizedProfile(p: Profile): Profile {
    Profile(Trim(p.uuid), Normalized(p.email), Normalized(p.orgUuid))
  }

  predicate CompleteIdentity(p: Profile) {
    p.uuid != "" && p.email.Some? && p.email.value != "" && p.orgUuid.Some? && p.orgUuid.value != ""
  }

  predicate SameOrgWhenKnown(left: Option<string>, right: Option<string>) {
    left.GetOr("") == "" || right.GetOr("") == "" || left == right
  }

  predicate SameLineage(left: Option<Text>, right: Text) {
    left.Some? && CredentialFingerprint(left.value) == CredentialFingerprint(right)
  }

  predicate Falsy(v: Option<Json>) {
    match v
    case None => true
    case Some(Null) => true
    case Some(Bool(b)) => !b
    case Some(Num(n)) => n == 0.0
    case Some(Str(s)) => s == ""
    case Some(_) => false
  }

  predicate IsWiped(t: Text) {
    match OauthBlock(t)
    case None => false
    case Some(oauth) => Falsy(Get(oauth, "accessToken")) && Falsy(Get(oauth, "refreshToken"))
  }

  // ----- which managed slot a profile names --------------------------------------

  predicate EmailMatch(s: Slot, p: Profile) {
    p.email.Some? && p.email.value != "" && s.email == p.email && s.orgUuid.GetOr("") == p.orgUuid.GetOr("")
  }

  predicate UuidMatch(s: Slot, p: Profile) {
    p.uuid != "" && Trim(s.accountId) == p.uuid && s.orgUuid.GetOr("") == p.orgUuid.GetOr("")
  }

  function FirstByEmail(slots: seq<Slot>, p: Profile): (r: Option<Slot>)
    ensures r.Some? ==> r.value in slots && EmailMatch(r.value, p)
    ensures r.None? ==> forall s :: s in slots ==> !EmailMatch(s, p)
  {
    if slots == [] then None
    else if EmailMatch(slots[0], p) then Some(slots[0])
    else FirstByEmail(slots[1..], p)
  }

  function FirstByUuid(slots: seq<Slot>, p: Profile): (r: Option<Slot>)
    ensures r.Some? ==> r.value in slots && UuidMatch(r.value, p)
    ensures r.None? ==> forall s :: s in slots ==> !UuidMatch(s, p)
  {
    if slots == [] then None
    else if UuidMatch(slots[0], p) then Some(slots[0])
    else FirstByUuid(slots[1..], p)
  }

  /** Same address, different account: both identifiers are known and disagree. */
  predicate Recycled(s: Slot, p: Profile) {
    p.uuid != "" && Trim(s.accountId) != "" && Trim(s.accountId) != p.uuid
  }

  /**
   A listed slot matched by address and not recycled, or else by id; none only when no slot has
   the profile's id and whoever has its address shares it with a recycled slot.
   */
  function ResolvedSlot(slots: seq<Slot>, p: Profile): (r: Option<Slot>)
    ensures r.Some? ==> r.value in slots && ((EmailMatch(r.value, p) && !Recycled(r.value, p)) || UuidMatch(r.value, p))
    ensures r.None? ==> forall s :: s in slots ==> !UuidMatch(s, p) && (EmailMatch(s, p) ==> exists e :: e in slots && EmailMatch(e, p) && Recycled(e, p))
  {
    var byEmail := FirstByEmail(slots, p);
    if byEmail.Some? && !Recycled(byEmail.value, p) then byEmail else FirstByUuid(slots, p)
  }

  // ----- the classifier -----------------------------------------------------------

  /** The kinds whose live bytes are written into the outgoing slot. */
  predicate AdoptedByOutgoing(k: Kind) {
    k == OwnFamily || k == OwnRotated || k == Unresolved
  }

  predicate PositivelyForeign(k: Kind) {
    k == Foreign || k == ForeignSynced || k == Alien || k == KnownForeign
  }

  /** The profile lookup was made with these very bytes. */
  predicate BoundProfile(live: Text, provenance: Prefetched) {
    provenance.resolved.Some? && provenance.liveCredential == Some(live)
  }

  /**
   Bytes reach the outgoing slot only with the outgoing account's refresh lineage, with
   a bound profile that names the outgoing account (by id, or by address and organisation),
   or with no positive evidence that they belong to anybody else. A cross-slot verdict names
   another managed slot whose id is the profile's own non-empty id, on a bound profile, and
   says synced exactly when that slot holds the bytes or their refresh lineage.
   */
  function Classification(outgoing: Slot, slots: seq<Slot>, live: Text, provenance: Prefetched, probeVerdict: Option<bool>): (r: Classified)
    ensures r.kind == OwnBytes <==> outgoing.credential == Some(live)
    ensures r.kind == OwnFamily ==> SameLineage(outgoing.credential, live)
    ensures r.kind == OwnRotated ==>
              && BoundProfile(live, provenance)
              && var p := NormalizedProfile(provenance.resolved.value);
                 || (p.uuid != "" && Trim(outgoing.accountId) == p.uuid)
                 || exists s :: s in slots && s.accountId == outgoing.accountId && EmailMatch(s, p) && !Recycled(s, p)
    ensures r.kind == Unresolved ==>
              if BoundProfile(live, provenance)
              then !CompleteIdentity(NormalizedProfile(provenance.resolved.value))
              else probeVerdict != Some(false)
    ensures r.foreignSlotId.Some? <==> r.kind == Foreign || r.kind == ForeignSynced
    ensures r.foreignSlotId.Some? ==>
              && BoundProfile(live, provenance)
              && exists s :: s in slots
                          && s.accountId == r.foreignSlotId.value != outgoing.accountId
                          && Trim(s.accountId) == Trim(provenance.resolved.value.uuid) != ""
                          && (r.kind == ForeignSynced <==> s.credential == Some(live) || SameLineage(s.credential, live))
  {
    if outgoing.credential == Some(live) then Classified(OwnBytes, None)
    else if SameLineage(outgoing.credential, live) then Classified(OwnFamily, None)
    else if IsWiped(live) then Classified(Wiped, None)
    else if provenance.resolved.None? || provenance.liveCredential != Some(live) then
      Classified(if probeVerdict == Some(false) then KnownForeign else Unresolved, None)
    else
      var p := NormalizedProfile(provenance.resolved.value);
      var unmatched := Classified(if CompleteIdentity(p) then Alien else Unresolved, None);
      if p.uuid != "" && Trim(outgoing.accountId) == p.uuid && SameOrgWhenKnown(outgoing.orgUuid, p.orgUuid) then
        Classified(OwnRotated, None)
      else
        var slot := ResolvedSlot(slots, p);
        if slot.Some? && slot.value.accountId == outgoing.accountId then Classified(OwnRotated, None)
        else if slot.None? then unmatched
        else if p.uuid == "" || Trim(slot.value.accountId) != p.uuid then unmatched
        else if slot.value.credential == Some(live) || SameLineage(slot.value.credential, live) then
          Classified(ForeignSynced, Some(slot.value.accountId))
        else Classified(Foreign, Some(slot.value.accountId))
  }

  lemma WipedMeans(outgoing: Slot, slots: seq<Slot>, live: Text, provenance: Prefetched, probeVerdict: Option<bool>)
    ensures Classification(outgoing, slots, live, provenance, probeVerdict).kind == Wiped ==> IsWiped(live)
  {
    hide ResolvedSlot, NormalizedProfile, CredentialFingerprint, IsWiped;
  }
}
