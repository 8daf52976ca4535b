/**
 Card versions and the proposals that change cards: submit, withdraw, reject, and accept with its
 effect on the card, its version rows and one audit row. Each call is one serial transaction.
 */
module CardProposals {
  import opened Common
  import opened RoutePath

  datatype CardText = CardText(title: string, content: string)

  datatype Card = Card(text: CardText, currentVersion: nat, archived: bool)

  datatype Status = PendingReview | AcceptedApplied | Rejected | Withdrawn

  datatype Payload =
    | Create(text: CardText)
    | Edit(target: int, base: int, text: CardText)
    | Delete(target: int, base: int, seen: CardText)

  datatype Proposal = Proposal(payload: Payload, submitter: string, reason: string, status: Status, reviewer: Option<string>,
                               note: Option<string>)

  /** What an accepted proposal did: the card it touched and the version it wrote, if any. */
  datatype Audit = Audit(proposal: int, reviewer: string, card: int, version: Option<nat>)

  /** `versions` is keyed by card and version number. */
  datatype Desk = Desk(
    cards: map<int, Card>, nextCard: int, versions: map<(int, int), CardText>,
    proposals: map<int, Proposal>, nextProposal: int, audits: seq<Audit>)

  datatype Fault =
    | BlankReason | MissingFields | VersionNotFound | NoChange | Unsupported | ProposalNotFound | NotPending
    | RoleRequired | OnlySubmitter | BlankText | EmbeddingFailed | TargetGone

  const EmptyDesk := Desk(map[], 1, map[], map[], 1, [])

  predicate Blank(s: string) {
    Strip(s, IsSpace) == ""
  }

  // ----- card writes -----

  /** `create_node`: the card and its version 1. */
  function CardAdded(d: Desk, text: CardText): Desk {
    d.(cards := d.cards[d.nextCard := Card(text, 1, false)], versions := d.versions[(d.nextCard, 1) := text],
       nextCard := d.nextCard + 1)
  }

  /** `create_next_card_version` */
  function CardRewritten(d: Desk, card: int, text: CardText): Outcome<(Desk, nat), Fault> {
    if card !in d.cards || d.cards[card].archived then Raised(TargetGone)
    else
      var version := d.cards[card].currentVersion + 1;
      Ok((d.(cards := d.cards[card := Card(text, version, false)], versions := d.versions[(card, version) := text]), version))
  }

  /** `archive_node`: nothing happens to a card that is gone or archived already. */
  function CardArchived(d: Desk, card: int): Desk {
    if card !in d.cards || d.cards[card].archived then d else d.(cards := d.cards[card := d.cards[card].(archived := true)])
  }

  // ----- submitting -----

  datatype Request = Request(
    kind: string, title: Option<string>, content: Option<string>, target: Option<int>, base: Option<int>,
    newTitle: Option<string>, newContent: Option<string>)

  /** `_build_proposal_payload` */
  function BuildPayload(d: Desk, r: Request): Outcome<Payload, Fault> {
    if r.kind == "create" then
      if r.title == None || r.content == None then Raised(MissingFields) else Ok(Create(CardText(r.title.value, r.content.value)))
    else if r.target == None || r.base == None then Raised(MissingFields)
    else if (r.target.value, r.base.value) !in d.versions then Raised(VersionNotFound)
    else
      var base := d.versions[(r.target.value, r.base.value)];
      if r.kind == "edit" then
        if r.newTitle == None || r.newContent == None then Raised(MissingFields)
        else if CardText(r.newTitle.value, r.newContent.value) == base then Raised(NoChange)
        else Ok(Edit(r.target.value, r.base.value, CardText(r.newTitle.value, r.newContent.value)))
      else if r.kind == "delete" then Ok(Delete(r.target.value, r.base.value, base))
      else Raised(Unsupported)
  }

  function Filed(d: Desk, payload: Payload, submitter: string, reason: string): Desk {
    d.(proposals := d.proposals[d.nextProposal := Proposal(payload, submitter, Strip(reason, IsSpace), PendingReview, None, None)],
       nextProposal := d.nextProposal + 1)
  }

  /** `submit_card_proposal` */
  function Submitted(d: Desk, r: Request, submitter: string, reason: string): Outcome<Desk, Fault> {
    if Blank(reason) then Raised(BlankReason)
    else
      match BuildPayload(d, r)
      case Raised(e) => Raised(e)
      case Ok(payload) => Ok(Filed(d, payload, submitter, reason))
  }

  /** `submit_card_suggested_edit` */
  function EditSuggested(d: Desk, card: int, base: int, text: CardText, submitter: string, reason: string): Outcome<Desk, Fault> {
    if Blank(reason) then Raised(BlankReason)
    else if (card, base) !in d.versions then Raised(VersionNotFound)
    else if text == d.versions[(card, base)] then Raised(NoChange)
    else Ok(Filed(d, Edit(card, base, text), submitter, reason))
  }

  // ----- resolving -----

  /** `_fetch_pending_proposal` */
  function PendingProblem(d: Desk, id: int): Option<Fault> {
    if id !in d.proposals then Some(ProposalNotFound)
    else if d.proposals[id].status != PendingReview then Some(NotPending)
    else None
  }

  /** `_transition_card_proposal` */
  function Resolved(d: Desk, id: int, status: Status, reviewer: Option<string>, note: Option<string>): Desk
    requires id in d.proposals
  {
    d.(proposals := d.proposals[id := d.proposals[id].(status := status, reviewer := reviewer, note := note)])
  }

  /** `reject_card_proposal` */
  function RejectedBy(d: Desk, id: int, reviewer: string, hasRole: bool, note: Option<string>): Outcome<Desk, Fault> {
    var problem := PendingProblem(d, id);
    if problem.Some? then Raised(problem.value)
    else if !hasRole then Raised(RoleRequired)
    else Ok(Resolved(d, id, Rejected, Some(reviewer), note))
  }

  /** `withdraw_card_proposal` */
  function WithdrawnBy(d: Desk, id: int, user: string): Outcome<Desk, Fault> {
    var problem := PendingProblem(d, id);
    if problem.Some? then Raised(problem.value)
    else if d.proposals[id].submitter != user then Raised(OnlySubmitter)
    else Ok(Resolved(d, id, Withdrawn, None, None))
  }

  datatype Effect = Effect(desk: Desk, card: int, version: Option<nat>)

  /** `_apply_proposal`: text is checked and embedded before anything is written. */
  function Applied(d: Desk, payload: Payload, embeds: bool): Outcome<Effect, Fault> {
    match payload
    case Create(text) =>
      if Blank(text.title) || Blank(text.content) then Raised(BlankText)
      else if !embeds then Raised(EmbeddingFailed)
      else Ok(Effect(CardAdded(d, text), d.nextCard, Some(1)))
    case Edit(card, _, text) =>
      if card < 1 || Blank(text.title) || Blank(text.content) then Raised(BlankText)
      else if !embeds then Raised(EmbeddingFailed)
      else
        (match CardRewritten(d, card, text)
         case Raised(e) => Raised(e)
         case Ok((after, version)) => Ok(Effect(after, card, Some(version))))
    case Delete(card, _, _) =>
      if card < 1 then Raised(BlankText) else Ok(Effect(CardArchived(d, card), card, None))
  }

  /** `accept_card_proposal`: apply, mark, audit. */
  function Accepted(d: Desk, id: int, reviewer: string, hasRole: bool, note: Option<string>, embeds: bool): Outcome<Desk, Fault> {
    if !hasRole then Raised(RoleRequired)
    else
      var problem := PendingProblem(d, id);
      if problem.Some? then Raised(problem.value)
      else
        match Applied(d, d.proposals[id].payload, embeds)
        case Raised(e) => Raised(e)
        case Ok(effect) =>
          if id !in effect.desk.proposals then Raised(ProposalNotFound)
          else
            var marked := Resolved(effect.desk, id, AcceptedApplied, Some(reviewer), note);
            Ok(marked.(audits := marked.audits + [Audit(id, reviewer, effect.card, effect.version)]))
  }

  // ----- every run -----

  datatype Call =
    | AddCard(text: CardText)
    | Submit(request: Request, submitter: string, reason: string)
    | SuggestEdit(card: int, base: int, newText: CardText, submitter: string, reason: string)
    | Reject(id: int, reviewer: string, hasRole: bool, note: Option<string>)
    | Withdraw(id: int, user: string)
    | Accept(id: int, reviewer: string, hasRole: bool, note: Option<string>, embeds: bool)

  function Outcomes(d: Desk, call: Call): Outcome<Desk, Fault> {
    match call
    case AddCard(text) => Ok(CardAdded(d, text))
    case Submit(request, submitter, reason) => Submitted(d, request, submitter, reason)
    case SuggestEdit(card, base, text, submitter, reason) => EditSuggested(d, card, base, text, submitter, reason)
    case Reject(id, reviewer, hasRole, note) => RejectedBy(d, id, reviewer, hasRole, note)
    case Withdraw(id, user) => WithdrawnBy(d, id, user)
    case Accept(id, reviewer, hasRole, note, embeds) => Accepted(d, id, reviewer, hasRole, note, embeds)
  }

  /** A call that raises is rolled back. */
  function Apply(d: Desk, call: Call): Desk {
    match Outcomes(d, call) case Ok(after) => after case Raised(_) => d
  }

  function Run(d: Desk, calls: seq<Call>): Desk {
    if calls == [] then d else Apply(Run(d, calls[..|calls| - 1]), calls[|calls| - 1])
  }

  /** Stored versions are exactly 1 up to the current one, and the last is what the card shows. */
  ghost predicate VersionsRight(d: Desk) {
    && (forall c, v {:trigger (c, v) in d.versions} ::
          (c, v) in d.versions <==> c in d.cards && 1 <= v <= d.cards[c].currentVersion)
    && (forall c {:trigger d.cards[c]} :: c in d.cards ==>
          c < d.nextCard && d.cards[c].currentVersion >= 1 && d.versions[(c, d.cards[c].currentVersion)] == d.cards[c].text)
  }

  ghost predicate IsAcceptedEdit(d: Desk, id: int, card: int) {
    id in d.proposals && d.proposals[id].status == AcceptedApplied && d.proposals[id].payload.Edit?
    && d.proposals[id].payload.target == card
  }

  ghost function AcceptedEdits(d: Desk, card: int): set<int> {
    set id | id in d.proposals && IsAcceptedEdit(d, id, card)
  }

  ghost predicate EditsCounted(d: Desk) {
    forall c {:trigger d.cards[c]} :: c in d.cards ==> d.cards[c].currentVersion == 1 + |AcceptedEdits(d, c)|
  }

  ghost predicate IsAudited(d: Desk, id: int, k: int) {
    0 <= k < |d.audits| && d.audits[k].proposal == id
  }

  /** Accepted proposals have one audit each, other proposals none. */
  ghost predicate AuditsRight(d: Desk) {
    && (forall k :: 0 <= k < |d.audits| ==>
          d.audits[k].proposal in d.proposals && d.proposals[d.audits[k].proposal].status == AcceptedApplied)
    && (forall j, k :: 0 <= j < k < |d.audits| ==> d.audits[j].proposal != d.audits[k].proposal)
    && (forall id {:trigger d.proposals[id]} :: id in d.proposals && d.proposals[id].status == AcceptedApplied ==>
          exists k :: IsAudited(d, id, k))
  }

  /** What an audit says was written is there, with the proposal's text. */
  ghost predicate AuditTruthful(d: Desk, a: Audit) {
    && a.proposal in d.proposals
    && match d.proposals[a.proposal].payload
       case Create(text) => a.version == Some(1) && (a.card, 1) in d.versions && d.versions[(a.card, 1)] == text
       case Edit(card, _, text) =>
         a.card == card && a.version.Some? && a.version.value >= 2
         && (card, a.version.value) in d.versions && d.versions[(card, a.version.value)] == text
       case Delete(card, _, _) => a.card == card && a.version == None && card in d.cards && d.cards[card].archived
  }

  ghost predicate AuditsTruthful(d: Desk) {
    forall k :: 0 <= k < |d.audits| ==> AuditTruthful(d, d.audits[k])
  }

  ghost predicate ProposalsRight(d: Desk) {
    forall id {:trigger d.proposals[id]} :: id in d.proposals ==>
      id < d.nextProposal && (!d.proposals[id].payload.Create? ==> d.proposals[id].payload.target in d.cards)
  }

  ghost predicate Right(d: Desk) {
    VersionsRight(d) && EditsCounted(d) && AuditsRight(d) && AuditsTruthful(d) && ProposalsRight(d)
  }

  // What each kind of write keeps.

  lemma SameEdits(d: Desk, after: Desk, card: int)
    requires forall id :: IsAcceptedEdit(after, id, card) <==> IsAcceptedEdit(d, id, card)
    ensures AcceptedEdits(after, card) == AcceptedEdits(d, card)
  {
    var a, b := AcceptedEdits(after, card), AcceptedEdits(d, card);
    forall id ensures id in a <==> id in b {
      assert IsAcceptedEdit(after, id, card) <==> IsAcceptedEdit(d, id, card);
    }
  }

  lemma TruthStays(d: Desk, after: Desk)
    requires AuditsTruthful(d) && after.audits == d.audits && after.proposals.Keys >= d.proposals.Keys
    requires forall id :: id in d.proposals ==> after.proposals[id].payload == d.proposals[id].payload
    requires forall k {:trigger d.versions[k]} :: k in d.versions ==> k in after.versions && after.versions[k] == d.versions[k]
    requires forall c {:trigger d.cards[c]} :: c in d.cards && d.cards[c].archived ==> c in after.cards && after.cards[c].archived
    ensures AuditsTruthful(after)
  {
    forall k | 0 <= k < |after.audits| ensures AuditTruthful(after, after.audits[k]) {
      assert AuditTruthful(d, d.audits[k]);
    }
  }

  lemma AddKeeps(d: Desk, text: CardText)
    requires Right(d)
    ensures Right(CardAdded(d, text))
  {
    var after := CardAdded(d, text);
    AddedVersions(d, text);
    AddedCounts(d, text);
    TruthStays(d, after);
    AuditsSame(d, after);
  }

  lemma AddedVersions(d: Desk, text: CardText)
    requires VersionsRight(d)
    ensures VersionsRight(CardAdded(d, text)) && d.nextCard !in d.cards && (d.nextCard, 1) !in d.versions
  {
  }

  lemma AddedCounts(d: Desk, text: CardText)
    requires VersionsRight(d) && EditsCounted(d) && ProposalsRight(d)
    ensures EditsCounted(CardAdded(d, text))
  {
    var after := CardAdded(d, text);
    AddedVersions(d, text);
    NoEditsYet(d, d.nextCard);
    forall c | c in after.cards ensures after.cards[c].currentVersion == 1 + |AcceptedEdits(after, c)| {
      SameEdits(d, after, c);
    }
  }

  lemma AuditsSame(d: Desk, after: Desk)
    requires AuditsRight(d) && after.audits == d.audits
    requires forall id {:trigger after.proposals[id]} {:trigger d.proposals[id]} ::
               (id in after.proposals && after.proposals[id].status == AcceptedApplied)
               <==> (id in d.proposals && d.proposals[id].status == AcceptedApplied)
    ensures AuditsRight(after)
  {
    forall id | id in after.proposals && after.proposals[id].status == AcceptedApplied
      ensures exists k :: IsAudited(after, id, k)
    {
      assert id in d.proposals && d.proposals[id].status == AcceptedApplied;
      var k :| IsAudited(d, id, k);
      assert IsAudited(after, id, k);
    }
  }

  lemma FileKeeps(d: Desk, payload: Payload, submitter: string, reason: string)
    requires Right(d) && (!payload.Create? ==> payload.target in d.cards)
    ensures Right(Filed(d, payload, submitter, reason))
  {
    var after := Filed(d, payload, submitter, reason);
    FiledCounts(d, payload, submitter, reason);
    FiledProposals(d, payload, submitter, reason);
    TruthStays(d, after);
    AuditsSame(d, after);
  }

  lemma FiledProposals(d: Desk, payload: Payload, submitter: string, reason: string)
    requires ProposalsRight(d) && (!payload.Create? ==> payload.target in d.cards)
    ensures ProposalsRight(Filed(d, payload, submitter, reason)) && d.nextProposal !in d.proposals
  {
  }

  lemma FiledCounts(d: Desk, payload: Payload, submitter: string, reason: string)
    requires EditsCounted(d) && ProposalsRight(d)
    ensures EditsCounted(Filed(d, payload, submitter, reason))
  {
    var after := Filed(d, payload, submitter, reason);
    forall c | c in after.cards ensures after.cards[c].currentVersion == 1 + |AcceptedEdits(after, c)| {
      SameEdits(d, after, c);
    }
  }

  lemma ResolveCounts(d: Desk, id: int, status: Status, reviewer: Option<string>, note: Option<string>)
    requires EditsCounted(d) && id in d.proposals && d.proposals[id].status == PendingReview && status != AcceptedApplied
    ensures EditsCounted(Resolved(d, id, status, reviewer, note))
  {
    var after := Resolved(d, id, status, reviewer, note);
    forall c | c in after.cards ensures after.cards[c].currentVersion == 1 + |AcceptedEdits(after, c)| {
      SameEdits(d, after, c);
    }
  }

  lemma ResolveAudits(d: Desk, id: int, status: Status, reviewer: Option<string>, note: Option<string>)
    requires AuditsRight(d) && AuditsTruthful(d) && id in d.proposals && d.proposals[id].status == PendingReview && status != AcceptedApplied
    ensures var after := Resolved(d, id, status, reviewer, note); AuditsRight(after) && AuditsTruthful(after)
  {
    var after := Resolved(d, id, status, reviewer, note);
    TruthStays(d, after);
    AuditsSame(d, after);
  }

  lemma ResolveKeeps(d: Desk, id: int, status: Status, reviewer: Option<string>, note: Option<string>)
    requires Right(d) && id in d.proposals && d.proposals[id].status == PendingReview && status != AcceptedApplied
    ensures Right(Resolved(d, id, status, reviewer, note))
  {
    ResolveCounts(d, id, status, reviewer, note);
    ResolveAudits(d, id, status, reviewer, note);
  }

  // What accepting keeps: the write to the cards, then the mark and the audit.

  /** The cards after an accepted proposal's write. */
  ghost predicate Writes(d: Desk, payload: Payload, e: Effect) {
    && e.desk.proposals == d.proposals && e.desk.nextProposal == d.nextProposal && e.desk.audits == d.audits
    && VersionsRight(e.desk)
    && (forall c {:trigger d.cards[c]} :: c in d.cards ==>
          && c in e.desk.cards
          && e.desk.cards[c].currentVersion == d.cards[c].currentVersion + (if payload.Edit? && payload.target == c then 1 else 0)
          && (d.cards[c].archived ==> e.desk.cards[c] == d.cards[c]))
    && (forall c {:trigger e.desk.cards[c]} :: c in e.desk.cards && c !in d.cards ==>
          !payload.Edit? && e.desk.cards[c].currentVersion == 1)
    && (forall k {:trigger d.versions[k]} :: k in d.versions ==> k in e.desk.versions && e.desk.versions[k] == d.versions[k])
    && match payload
       case Create(text) => e.version == Some(1) && (e.card, 1) in e.desk.versions && e.desk.versions[(e.card, 1)] == text
       case Edit(card, _, text) =>
         && e.card == card && card in d.cards && e.version == Some(d.cards[card].currentVersion + 1)
         && (card, e.version.value) in e.desk.versions && e.desk.versions[(card, e.version.value)] == text
       case Delete(card, _, _) => e.card == card && e.version == None && card in e.desk.cards && e.desk.cards[card].archived
  }

  lemma CreateWrites(d: Desk, text: CardText)
    requires Right(d)
    ensures Writes(d, Create(text), Effect(CardAdded(d, text), d.nextCard, Some(1)))
  {
  }

  lemma EditWrites(d: Desk, card: int, base: int, text: CardText)
    requires Right(d) && CardRewritten(d, card, text).Ok?
    ensures var (after, version) := CardRewritten(d, card, text).value;
            Writes(d, Edit(card, base, text), Effect(after, card, Some(version)))
  {
    assert (card, d.cards[card].currentVersion + 1) !in d.versions;
  }

  lemma DeleteWrites(d: Desk, card: int, base: int, seen: CardText)
    requires Right(d) && card in d.cards
    ensures Writes(d, Delete(card, base, seen), Effect(CardArchived(d, card), card, None))
  {
  }

  lemma AppliedWrites(d: Desk, payload: Payload, embeds: bool)
    requires Right(d) && (!payload.Create? ==> payload.target in d.cards) && Applied(d, payload, embeds).Ok?
    ensures Writes(d, payload, Applied(d, payload, embeds).value)
  {
    match payload
    case Create(text) => CreateWrites(d, text);
    case Edit(card, base, text) => EditWrites(d, card, base, text);
    case Delete(card, base, seen) => DeleteWrites(d, card, base, seen);
  }

  ghost function Marked(e: Effect, id: int, reviewer: string, note: Option<string>): Desk
    requires id in e.desk.proposals
  {
    Resolved(e.desk, id, AcceptedApplied, Some(reviewer), note).(audits := e.desk.audits + [Audit(id, reviewer, e.card, e.version)])
  }

  lemma MarkedEdits(d: Desk, after: Desk, id: int, c: int)
    requires id in d.proposals && d.proposals[id].status == PendingReview && id in after.proposals
    requires after.proposals == d.proposals[id := after.proposals[id]]
    requires after.proposals[id].status == AcceptedApplied && after.proposals[id].payload == d.proposals[id].payload
    ensures var payload := d.proposals[id].payload;
            |AcceptedEdits(after, c)| == |AcceptedEdits(d, c)| + if payload.Edit? && payload.target == c then 1 else 0
  {
    var payload := d.proposals[id].payload;
    if payload.Edit? && payload.target == c {
      assert id !in AcceptedEdits(d, c);
      assert AcceptedEdits(after, c) == AcceptedEdits(d, c) + {id};
    } else {
      SameEdits(d, after, c);
    }
  }

  lemma NoEditsYet(d: Desk, c: int)
    requires ProposalsRight(d) && c !in d.cards
    ensures AcceptedEdits(d, c) == {}
  {
  }

  lemma MarkCountsEdits(d: Desk, id: int, e: Effect, reviewer: string, note: Option<string>, c: int)
    requires Right(d) && id in d.proposals && d.proposals[id].status == PendingReview && Writes(d, d.proposals[id].payload, e)
    requires c in e.desk.cards
    ensures e.desk.cards[c].currentVersion == 1 + |AcceptedEdits(Marked(e, id, reviewer, note), c)|
  {
    MarkedEdits(d, Marked(e, id, reviewer, note), id, c);
    if c !in d.cards {
      NoEditsYet(d, c);
    }
  }

  lemma MarkAudits(d: Desk, id: int, after: Desk, a: Audit)
    requires AuditsRight(d) && id in d.proposals && d.proposals[id].status == PendingReview && a.proposal == id
    requires after.audits == d.audits + [a] && id in after.proposals
    requires after.proposals == d.proposals[id := after.proposals[id]] && after.proposals[id].status == AcceptedApplied
    ensures AuditsRight(after)
  {
    forall p | p in after.proposals && after.proposals[p].status == AcceptedApplied ensures exists k :: IsAudited(after, p, k) {
      if p == id {
        assert IsAudited(after, p, |d.audits|);
      } else {
        var k :| IsAudited(d, p, k);
        assert IsAudited(after, p, k);
      }
    }
  }

  lemma MarkTruthful(d: Desk, id: int, e: Effect, reviewer: string, note: Option<string>)
    requires Right(d) && id in d.proposals && d.proposals[id].status == PendingReview && Writes(d, d.proposals[id].payload, e)
    ensures AuditsTruthful(Marked(e, id, reviewer, note))
  {
    var after := Marked(e, id, reviewer, note);
    forall k | 0 <= k < |after.audits| ensures AuditTruthful(after, after.audits[k]) {
      if k < |d.audits| {
        assert AuditTruthful(d, d.audits[k]);
      }
    }
  }

  lemma AcceptKeeps(d: Desk, id: int, reviewer: string, hasRole: bool, note: Option<string>, embeds: bool)
    requires Right(d) && Accepted(d, id, reviewer, hasRole, note, embeds).Ok?
    ensures Right(Accepted(d, id, reviewer, hasRole, note, embeds).value)
  {
    var payload := d.proposals[id].payload;
    AppliedWrites(d, payload, embeds);
    var e := Applied(d, payload, embeds).value;
    var after := Marked(e, id, reviewer, note);
    assert Accepted(d, id, reviewer, hasRole, note, embeds) == Ok(after);
    forall c | c in after.cards ensures after.cards[c].currentVersion == 1 + |AcceptedEdits(after, c)| {
      MarkCountsEdits(d, id, e, reviewer, note, c);
    }
    MarkAudits(d, id, after, Audit(id, reviewer, e.card, e.version));
    MarkTruthful(d, id, e, reviewer, note);
  }

  lemma BuiltPayload(d: Desk, r: Request)
    requires Right(d) && BuildPayload(d, r).Ok?
    ensures var payload := BuildPayload(d, r).value; !payload.Create? ==> payload.target in d.cards
  {
  }

  lemma ApplyKeeps(d: Desk, call: Call)
    requires Right(d)
    ensures Right(Apply(d, call))
  {
    if Outcomes(d, call).Ok? {
      match call
      case AddCard(text) => AddKeeps(d, text);
      case Submit(request, submitter, reason) =>
        BuiltPayload(d, request);
        FileKeeps(d, BuildPayload(d, request).value, submitter, reason);
      case SuggestEdit(card, base, text, submitter, reason) => FileKeeps(d, Edit(card, base, text), submitter, reason);
      case Reject(id, reviewer, hasRole, note) => ResolveKeeps(d, id, Rejected, Some(reviewer), note);
      case Withdraw(id, user) => ResolveKeeps(d, id, Withdrawn, None, None);
      case Accept(id, reviewer, hasRole, note, embeds) => AcceptKeeps(d, id, reviewer, hasRole, note, embeds);
    }
  }

  /**
   In every run: versions are exactly 1 to the current one and the last is live, the current version
   is one more than the accepted edits of the card, accepted proposals have exactly one audit and
   others none, and each audit names a version that still holds the proposal's text.
   */
  lemma {:induction false} HistoryIsRight(calls: seq<Call>)
    ensures Right(Run(EmptyDesk, calls))
  {
    if calls != [] {
      HistoryIsRight(calls[..|calls| - 1]);
      ApplyKeeps(Run(EmptyDesk, calls[..|calls| - 1]), calls[|calls| - 1]);
    }
  }

  // ----- how a proposal ends -----

  /** The proposal is resolved in this status, and no other proposal, card or version differs. */
  ghost predicate EndsIn(d: Desk, after: Desk, id: int, status: Status, reviewer: Option<string>) {
    && id in d.proposals && d.proposals[id].status == PendingReview
    && after.proposals.Keys == d.proposals.Keys
    && after.proposals[id].status == status && after.proposals[id].reviewer == reviewer
    && after.proposals[id].payload == d.proposals[id].payload
    && (forall other :: other in d.proposals && other != id ==> after.proposals[other] == d.proposals[other])
  }

  /** A rejection that succeeds ends pending proposals as rejected, and touches nothing else; it succeeds for reviewers alone. */
  lemma RejectionEnds(d: Desk, id: int, reviewer: string, hasRole: bool, note: Option<string>)
    ensures var r := RejectedBy(d, id, reviewer, hasRole, note);
            && (r.Ok? <==> id in d.proposals && d.proposals[id].status == PendingReview && hasRole)
            && (r.Ok? ==> EndsIn(d, r.value, id, Rejected, Some(reviewer)) && r.value == d.(proposals := r.value.proposals))
  {
  }

  /** A withdrawal that succeeds ends pending proposals as withdrawn, for their submitters alone. */
  lemma WithdrawalEnds(d: Desk, id: int, user: string)
    ensures var r := WithdrawnBy(d, id, user);
            && (r.Ok? <==> id in d.proposals && d.proposals[id].status == PendingReview && d.proposals[id].submitter == user)
            && (r.Ok? ==> EndsIn(d, r.value, id, Withdrawn, None) && r.value == d.(proposals := r.value.proposals))
  {
  }

  /** An acceptance that succeeds ends pending proposals as accepted, for reviewers alone. */
  lemma AcceptanceEnds(d: Desk, id: int, reviewer: string, hasRole: bool, note: Option<string>, embeds: bool)
    ensures var r := Accepted(d, id, reviewer, hasRole, note, embeds);
            r.Ok? ==> hasRole && EndsIn(d, r.value, id, AcceptedApplied, Some(reviewer))
  {
  }

  /** The call resolves the proposal. */
  predicate Resolves(d: Desk, call: Call, id: int) {
    (call.Reject? || call.Withdraw? || call.Accept?) && call.id == id && Outcomes(d, call).Ok?
  }

  function Resolutions(calls: seq<Call>, id: int): nat {
    if calls == [] then 0
    else
      var front := calls[..|calls| - 1];
      Resolutions(front, id) + if Resolves(Run(EmptyDesk, front), calls[|calls| - 1], id) then 1 else 0
  }

  predicate IsResolved(d: Desk, id: int) {
    id in d.proposals && d.proposals[id].status != PendingReview
  }

  lemma ResolvedOnce(d: Desk, call: Call, id: int)
    requires Right(d)
    ensures Resolves(d, call, id) ==> !IsResolved(d, id) && IsResolved(Apply(d, call), id)
    ensures !Resolves(d, call, id) ==> (IsResolved(Apply(d, call), id) <==> IsResolved(d, id))
  {
    match call
    case Reject(other, reviewer, hasRole, note) => RejectionEnds(d, other, reviewer, hasRole, note);
    case Withdraw(other, user) => WithdrawalEnds(d, other, user);
    case Accept(other, reviewer, hasRole, note, embeds) => AcceptanceEnds(d, other, reviewer, hasRole, note, embeds);
    case _ =>
  }

  /** In every run a proposal is resolved at most once: once if it is no longer pending, and else never. */
  lemma {:induction false} ResolvedAtMostOnce(calls: seq<Call>, id: int)
    ensures Resolutions(calls, id) == if IsResolved(Run(EmptyDesk, calls), id) then 1 else 0
  {
    if calls != [] {
      var front := calls[..|calls| - 1];
      ResolvedAtMostOnce(front, id);
      HistoryIsRight(front);
      ResolvedOnce(Run(EmptyDesk, front), calls[|calls| - 1], id);
    }
  }

  /** The one of the calls that resolved the proposal. */
  function ResolvingCall(calls: seq<Call>, id: int): Option<Call> {
    if calls == [] then None
    else
      var front, call := calls[..|calls| - 1], calls[|calls| - 1];
      if Resolves(Run(EmptyDesk, front), call, id) then Some(call) else ResolvingCall(front, id)
  }

  /** Each kind of resolving call has its own status, and leaves the reviewer if it has one. */
  ghost predicate EndedBy(proposal: Proposal, call: Option<Call>) {
    match call
    case Some(Reject(_, reviewer, _, _)) => proposal.status == Rejected && proposal.reviewer == Some(reviewer)
    case Some(Withdraw(_, user)) => proposal.status == Withdrawn && proposal.submitter == user && proposal.reviewer == None
    case Some(Accept(_, reviewer, _, _, _)) => proposal.status == AcceptedApplied && proposal.reviewer == Some(reviewer)
    case _ => proposal.status == PendingReview
  }

  lemma EndedNext(d: Desk, call: Call, id: int, before: Option<Call>)
    requires Right(d) && if id in d.proposals then EndedBy(d.proposals[id], before) else before == None
    ensures var after, last := Apply(d, call), if Resolves(d, call, id) then Some(call) else before;
            if id in after.proposals then EndedBy(after.proposals[id], last) else last == None
  {
    match call
    case Reject(other, reviewer, hasRole, note) => RejectionEnds(d, other, reviewer, hasRole, note);
    case Withdraw(other, user) => WithdrawalEnds(d, other, user);
    case Accept(other, reviewer, hasRole, note, embeds) => AcceptanceEnds(d, other, reviewer, hasRole, note, embeds);
    case _ =>
  }

  /** In every run a proposal is in the status of the call that resolved it, and pending if none did. */
  lemma {:induction false} EndsByItsCall(calls: seq<Call>, id: int)
    ensures var d, last := Run(EmptyDesk, calls), ResolvingCall(calls, id);
            if id in d.proposals then EndedBy(d.proposals[id], last) else last == None
  {
    if calls != [] {
      var front := calls[..|calls| - 1];
      EndsByItsCall(front, id);
      HistoryIsRight(front);
      EndedNext(Run(EmptyDesk, front), calls[|calls| - 1], id, ResolvingCall(front, id));
    }
  }

  /** What a request must hold to be filed. */
  predicate Fileable(d: Desk, r: Request) {
    if r.kind == "create" then r.title.Some? && r.content.Some?
    else
      && (r.kind == "edit" || r.kind == "delete") && r.target.Some? && r.base.Some? && (r.target.value, r.base.value) in d.versions
      && (r.kind == "edit" ==>
            r.newTitle.Some? && r.newContent.Some?
            && CardText(r.newTitle.value, r.newContent.value) != d.versions[(r.target.value, r.base.value)])
  }

  /** A proposal is filed exactly when it gives a reason and holds what its kind needs; it is then pending, under the next id. */
  lemma SubmissionFiles(d: Desk, r: Request, submitter: string, reason: string)
    ensures var s := Submitted(d, r, submitter, reason);
            && (s.Ok? <==> !Blank(reason) && Fileable(d, r))
            && (s.Ok? ==>
                  && s.value == d.(proposals := s.value.proposals, nextProposal := d.nextProposal + 1)
                  && s.value.proposals.Keys == d.proposals.Keys + {d.nextProposal}
                  && s.value.proposals[d.nextProposal].status == PendingReview
                  && s.value.proposals[d.nextProposal].reason == Strip(reason, IsSpace)
                  && forall id :: id in d.proposals && id != d.nextProposal ==> s.value.proposals[id] == d.proposals[id])
  {
  }

  /** Whether what a pending proposal asks for can be done. */
  predicate Doable(d: Desk, payload: Payload, embeds: bool) {
    match payload
    case Create(text) => !Blank(text.title) && !Blank(text.content) && embeds
    case Edit(card, _, text) =>
      card >= 1 && !Blank(text.title) && !Blank(text.content) && embeds && card in d.cards && !d.cards[card].archived
    case Delete(card, _, _) => card >= 1
  }

  /** A proposal is accepted exactly when a reviewer accepts it while it is pending and it can be done. */
  lemma AcceptanceSucceedsIff(d: Desk, id: int, reviewer: string, hasRole: bool, note: Option<string>, embeds: bool)
    ensures Accepted(d, id, reviewer, hasRole, note, embeds).Ok? <==>
            hasRole && id in d.proposals && d.proposals[id].status == PendingReview && Doable(d, d.proposals[id].payload, embeds)
  {
  }

  /** The text a proposal asks for. */
  function AskedText(r: Request): CardText
    requires if r.kind == "create" then r.title.Some? && r.content.Some? else r.newTitle.Some? && r.newContent.Some?
  {
    if r.kind == "create" then CardText(r.title.value, r.content.value) else CardText(r.newTitle.value, r.newContent.value)
  }

  /** Submitted and then accepted, a proposal leaves the card it asks for: a new one or a new text as written in it, or an archived card. */
  lemma AskedTextIsShown(d: Desk, r: Request, submitter: string, reason: string, reviewer: string, note: Option<string>, embeds: bool)
    requires Right(d) && Submitted(d, r, submitter, reason).Ok?
    requires Accepted(Submitted(d, r, submitter, reason).value, d.nextProposal, reviewer, true, note, embeds).Ok?
    ensures var filed := Submitted(d, r, submitter, reason).value;
            var after := Accepted(filed, d.nextProposal, reviewer, true, note, embeds).value;
            && d.nextProposal !in d.proposals && after.proposals[d.nextProposal].submitter == submitter
            && (r.kind == "create" ==>
                  r.title.Some? && r.content.Some? && d.nextCard !in d.cards
                  && after.cards == d.cards[d.nextCard := Card(AskedText(r), 1, false)])
            && (r.kind == "edit" ==>
                  r.newTitle.Some? && r.newContent.Some? && r.target.Some? && r.target.value in d.cards
                  && after.cards == d.cards[r.target.value := Card(AskedText(r), d.cards[r.target.value].currentVersion + 1, false)])
            && (r.kind == "delete" ==>
                  r.target.Some? && r.target.value in d.cards
                  && after.cards == d.cards[r.target.value := d.cards[r.target.value].(archived := true)])
  {
    BuiltPayload(d, r);
    AddedVersions(d, CardText("", ""));
  }

  // ----- what never changes again -----

  ghost predicate Grows(d: Desk, after: Desk) {
    && (forall k {:trigger d.versions[k]} :: k in d.versions ==> k in after.versions && after.versions[k] == d.versions[k])
    && (forall c {:trigger d.cards[c]} :: c in d.cards ==>
          && c in after.cards && d.cards[c].currentVersion <= after.cards[c].currentVersion
          && (d.cards[c].archived ==> after.cards[c] == d.cards[c]))
    && (forall id {:trigger d.proposals[id]} :: id in d.proposals ==>
          && id in after.proposals && after.proposals[id].payload == d.proposals[id].payload
          && (d.proposals[id].status != PendingReview ==> after.proposals[id] == d.proposals[id]))
    && d.audits <= after.audits
  }

  lemma ApplyGrows(d: Desk, call: Call)
    requires Right(d)
    ensures Grows(d, Apply(d, call))
  {
    if Outcomes(d, call).Ok? {
      match call
      case AddCard(text) => AddedVersions(d, text);
      case Accept(id, reviewer, hasRole, note, embeds) => AcceptGrows(d, id, reviewer, hasRole, note, embeds);
      case _ =>
    }
  }

  lemma AcceptGrows(d: Desk, id: int, reviewer: string, hasRole: bool, note: Option<string>, embeds: bool)
    requires Right(d) && Accepted(d, id, reviewer, hasRole, note, embeds).Ok?
    ensures Grows(d, Accepted(d, id, reviewer, hasRole, note, embeds).value)
  {
    AppliedWrites(d, d.proposals[id].payload, embeds);
  }

  lemma GrowsOn(d: Desk, mid: Desk, after: Desk)
    requires Grows(d, mid) && Grows(mid, after)
    ensures Grows(d, after)
  {
    forall c | c in d.cards ensures c in after.cards && d.cards[c].currentVersion <= after.cards[c].currentVersion
                                    && (d.cards[c].archived ==> after.cards[c] == d.cards[c])
    {
      assert c in mid.cards && d.cards[c].currentVersion <= mid.cards[c].currentVersion;
    }
  }

  /**
   From any moment of a run on: a stored version never changes, an archived card never changes, a
   resolved proposal never changes, audits are only added.
   */
  lemma {:induction false} HistoryOnlyGrows(before: seq<Call>, calls: seq<Call>)
    ensures Grows(Run(EmptyDesk, before), Run(Run(EmptyDesk, before), calls))
    ensures Right(Run(Run(EmptyDesk, before), calls))
  {
    var d := Run(EmptyDesk, before);
    HistoryIsRight(before);
    if calls != [] {
      var mid := Run(d, calls[..|calls| - 1]);
      HistoryOnlyGrows(before, calls[..|calls| - 1]);
      ApplyKeeps(mid, calls[|calls| - 1]);
      ApplyGrows(mid, calls[|calls| - 1]);
      GrowsOn(d, mid, Run(d, calls));
    }
  }
}
