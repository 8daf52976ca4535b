/** The proposal calls as the service and its repository run them on one session. */
module CardProposalService {
  import opened Common
  import opened RoutePath
  import opened CardProposals

  class ProposalSession {
    var cards: map<int, Card>
    var nextCard: int
    var versions: map<(int, int), CardText>
    var proposals: map<int, Proposal>
    var nextProposal: int
    var audits: seq<Audit>

    constructor ()
      ensures Snapshot() == EmptyDesk
    {
      cards, nextCard, versions := map[], 1, map[];
      proposals, nextProposal, audits := map[], 1, [];
    }

    function Snapshot(): Desk
      reads this
    {
      Desk(cards, nextCard, versions, proposals, nextProposal, audits)
    }

    /** `create_node` */
    method CreateNode(text: CardText) returns (card: int)
      modifies this
      ensures card == old(nextCard) && Snapshot() == CardAdded(old(Snapshot()), text)
    {
      card := nextCard;
      nextCard := nextCard + 1;
      cards := cards[card := Card(text, 1, false)];
      versions := versions[(card, cards[card].currentVersion) := text];
    }

    /** `create_next_card_version` */
    method CreateNextCardVersion(card: int, text: CardText) returns (r: Outcome<nat, Fault>)
      modifies this
      ensures match CardRewritten(old(Snapshot()), card, text)
              case Ok((after, version)) => r == Ok(version) && Snapshot() == after
              case Raised(e) => r == Raised(e) && Snapshot() == old(Snapshot())
    {
      if card !in cards || cards[card].archived {
        return Raised(TargetGone);
      }
      var version := cards[card].currentVersion + 1;
      cards := cards[card := cards[card].(text := text, currentVersion := version)];
      versions := versions[(card, version) := text];
      return Ok(version);
    }

    /** `archive_node` */
    method ArchiveNode(card: int)
      modifies this
      ensures Snapshot() == CardArchived(old(Snapshot()), card)
    {
      if card in cards && !cards[card].archived {
        cards := cards[card := cards[card].(archived := true)];
      }
    }

    /** `_transition_card_proposal` of a proposal that exists. */
    method Transition(id: int, status: Status, reviewer: Option<string>, note: Option<string>)
      requires id in proposals
      modifies this
      ensures Snapshot() == Resolved(old(Snapshot()), id, status, reviewer, note)
    {
      proposals := proposals[id := proposals[id].(status := status, reviewer := reviewer, note := note)];
    }

    method File(payload: Payload, submitter: string, reason: string) returns (id: int)
      modifies this
      ensures id == old(nextProposal) && Snapshot() == Filed(old(Snapshot()), payload, submitter, reason)
    {
      id := nextProposal;
      nextProposal := nextProposal + 1;
      proposals := proposals[id := Proposal(payload, submitter, Strip(reason, IsSpace), PendingReview, None, None)];
    }

    method SubmitCardProposal(request: Request, submitter: string, reason: string) returns (r: Outcome<int, Fault>)
      modifies this
      ensures match Submitted(old(Snapshot()), request, submitter, reason)
              case Ok(after) => r == Ok(old(nextProposal)) && Snapshot() == after
              case Raised(e) => r == Raised(e) && Snapshot() == old(Snapshot())
    {
      if Blank(reason) {
        return Raised(BlankReason);
      }
      var payload := BuildPayload(Snapshot(), request);
      if payload.Raised? {
        return Raised(payload.error);
      }
      var id := File(payload.value, submitter, reason);
      return Ok(id);
    }

    method SubmitCardSuggestedEdit(card: int, base: int, text: CardText, submitter: string, reason: string)
      returns (r: Outcome<int, Fault>)
      modifies this
      ensures match EditSuggested(old(Snapshot()), card, base, text, submitter, reason)
              case Ok(after) => r == Ok(old(nextProposal)) && Snapshot() == after
              case Raised(e) => r == Raised(e) && Snapshot() == old(Snapshot())
    {
      if Blank(reason) {
        return Raised(BlankReason);
      }
      if (card, base) !in versions {
        return Raised(VersionNotFound);
      }
      if versions[(card, base)] == text {
        return Raised(NoChange);
      }
      var id := File(Edit(card, base, text), submitter, reason);
      return Ok(id);
    }

    method FetchPendingProposal(id: int) returns (problem: Option<Fault>)
      ensures problem == PendingProblem(Snapshot(), id)
    {
      if id !in proposals {
        return Some(ProposalNotFound);
      }
      if proposals[id].status != PendingReview {
        return Some(NotPending);
      }
      return None;
    }

    method RejectCardProposal(id: int, reviewer: string, hasRole: bool, note: Option<string>) returns (failed: Option<Fault>)
      modifies this
      ensures match RejectedBy(old(Snapshot()), id, reviewer, hasRole, note)
              case Ok(after) => failed == None && Snapshot() == after
              case Raised(e) => failed == Some(e) && Snapshot() == old(Snapshot())
    {
      failed := FetchPendingProposal(id);
      if failed.Some? {
        return;
      }
      if !hasRole {
        return Some(RoleRequired);
      }
      Transition(id, Rejected, Some(reviewer), note);
    }

    method WithdrawCardProposal(id: int, user: string) returns (failed: Option<Fault>)
      modifies this
      ensures match WithdrawnBy(old(Snapshot()), id, user)
              case Ok(after) => failed == None && Snapshot() == after
              case Raised(e) => failed == Some(e) && Snapshot() == old(Snapshot())
    {
      failed := FetchPendingProposal(id);
      if failed.Some? {
        return;
      }
      if proposals[id].submitter != user {
        return Some(OnlySubmitter);
      }
      Transition(id, Withdrawn, None, None);
    }

    /** `_apply_proposal`: which card was touched, and the version written. */
    method ApplyProposal(payload: Payload, embeds: bool) returns (r: Outcome<(int, Option<nat>), Fault>)
      modifies this
      ensures match Applied(old(Snapshot()), payload, embeds)
              case Ok(e) => r == Ok((e.card, e.version)) && Snapshot() == e.desk
              case Raised(e) => r == Raised(e) && Snapshot() == old(Snapshot())
    {
      match payload {
        case Create(text) =>
          if Blank(text.title) || Blank(text.content) {
            return Raised(BlankText);
          }
          if !embeds {
            return Raised(EmbeddingFailed);
          }
          var card := CreateNode(text);
          return Ok((card, Some(1)));
        case Edit(card, _, text) =>
          if card < 1 || Blank(text.title) || Blank(text.content) {
            return Raised(BlankText);
          }
          if !embeds {
            return Raised(EmbeddingFailed);
          }
          var version := CreateNextCardVersion(card, text);
          if version.Raised? {
            return Raised(version.error);
          }
          return Ok((card, Some(version.value)));
        case Delete(card, _, _) =>
          if card < 1 {
            return Raised(BlankText);
          }
          ArchiveNode(card);
          return Ok((card, None));
      }
    }

    method AcceptCardProposal(id: int, reviewer: string, hasRole: bool, note: Option<string>, embeds: bool)
      returns (failed: Option<Fault>)
      modifies this
      ensures match Accepted(old(Snapshot()), id, reviewer, hasRole, note, embeds)
              case Ok(after) => failed == None && Snapshot() == after
              case Raised(e) => failed == Some(e) && Snapshot() == old(Snapshot())
    {
      if !hasRole {
        return Some(RoleRequired);
      }
      failed := FetchPendingProposal(id);
      if failed.Some? {
        return;
      }
      var applied := ApplyProposal(proposals[id].payload, embeds);
      if applied.Raised? {
        return Some(applied.error);
      }
      Transition(id, AcceptedApplied, Some(reviewer), note);
      audits := audits + [Audit(id, reviewer, applied.value.0, applied.value.1)];
    }
  }
}
