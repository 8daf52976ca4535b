/**
 Edits accepted on top of other edits: acceptance never compares the version an edit was filed on
 with the card's current one, so a later acceptance replaces what earlier ones wrote.
 */
module StaleEdits {
  import opened CardProposals
  import opened Common
  import opened RoutePath

  /** How many accepted edits wrote a version of the card later than `base`. */
  function EditsSince(audits: seq<Audit>, card: int, base: int): nat {
    if audits == [] then 0
    else
      var last := audits[|audits| - 1];
      EditsSince(audits[..|audits| - 1], card, base)
      + if last.card == card && last.version.Some? && last.version.value > base then 1 else 0
  }

  lemma {:induction false} NoneSince(audits: seq<Audit>, card: int, base: int)
    requires forall k :: 0 <= k < |audits| ==> audits[k].card == card ==> audits[k].version.Some? ==> audits[k].version.value <= base
    ensures EditsSince(audits, card, base) == 0
  {
    if audits != [] {
      NoneSince(audits[..|audits| - 1], card, base);
    }
  }

  lemma EditsSinceNext(audits: seq<Audit>, a: Audit, card: int, base: int)
    ensures EditsSince(audits + [a], card, base) ==
            EditsSince(audits, card, base) + if a.card == card && a.version.Some? && a.version.value > base then 1 else 0
  {
    assert (audits + [a])[..|audits|] == audits;
  }

  /** The versions after any stored one were written by as many accepted edits. */
  ghost predicate EditsWrote(d: Desk) {
    forall c, base {:trigger EditsSince(d.audits, c, base)} ::
      c in d.cards && 1 <= base <= d.cards[c].currentVersion ==>
        EditsSince(d.audits, c, base) == d.cards[c].currentVersion - base
  }

  /** A proposal to edit or delete names a stored version, and an edit changes the text of that version. */
  ghost predicate FiledOnVersion(d: Desk, payload: Payload) {
    match payload
    case Create(_) => true
    case Edit(card, base, text) => (card, base) in d.versions && d.versions[(card, base)] != text
    case Delete(card, base, seen) => (card, base) in d.versions && d.versions[(card, base)] == seen
  }

  ghost predicate AllFiledOnVersions(d: Desk) {
    forall id {:trigger d.proposals[id]} :: id in d.proposals ==> FiledOnVersion(d, d.proposals[id].payload)
  }

  // ----- every run -----

  lemma AuditsNameVersions(d: Desk, k: nat)
    requires VersionsRight(d) && AuditsTruthful(d) && k < |d.audits| && d.audits[k].version.Some?
    ensures d.audits[k].card in d.cards && d.audits[k].version.value <= d.cards[d.audits[k].card].currentVersion
  {
    assert AuditTruthful(d, d.audits[k]);
  }

  lemma NothingSinceCurrent(d: Desk, card: int, base: int)
    requires VersionsRight(d) && AuditsTruthful(d) && (card in d.cards ==> d.cards[card].currentVersion <= base)
    ensures EditsSince(d.audits, card, base) == 0
  {
    forall k | 0 <= k < |d.audits| && d.audits[k].card == card && d.audits[k].version.Some?
      ensures d.audits[k].version.value <= base
    {
      AuditsNameVersions(d, k);
    }
    NoneSince(d.audits, card, base);
  }

  lemma AcceptWrote(d: Desk, id: int, reviewer: string, hasRole: bool, note: Option<string>, embeds: bool)
    requires Right(d) && EditsWrote(d) && Accepted(d, id, reviewer, hasRole, note, embeds).Ok?
    ensures EditsWrote(Accepted(d, id, reviewer, hasRole, note, embeds).value)
  {
    var payload := d.proposals[id].payload;
    AppliedWrites(d, payload, embeds);
    var e := Applied(d, payload, embeds).value;
    var after := Accepted(d, id, reviewer, hasRole, note, embeds).value;
    var audit := Audit(id, reviewer, e.card, e.version);
    assert after.audits == d.audits + [audit] && after.cards == e.desk.cards;
    forall c, base | c in after.cards && 1 <= base <= after.cards[c].currentVersion
      ensures EditsSince(after.audits, c, base) == after.cards[c].currentVersion - base
    {
      EditsSinceNext(d.audits, audit, c, base);
      if c !in d.cards || base > d.cards[c].currentVersion {
        NothingSinceCurrent(d, c, base);
      }
    }
  }

  lemma AddWrote(d: Desk, text: CardText)
    requires Right(d) && EditsWrote(d)
    ensures EditsWrote(CardAdded(d, text))
  {
    AddedVersions(d, text);
    NothingSinceCurrent(d, d.nextCard, 1);
  }

  lemma ApplyWrote(d: Desk, call: Call)
    requires Right(d) && EditsWrote(d)
    ensures EditsWrote(Apply(d, call))
  {
    if Outcomes(d, call).Ok? {
      match call
      case Accept(id, reviewer, hasRole, note, embeds) => AcceptWrote(d, id, reviewer, hasRole, note, embeds);
      case AddCard(text) => AddWrote(d, text);
      case _ =>
    }
  }

  lemma VersionsStay(d: Desk, after: Desk, payload: Payload)
    requires Grows(d, after) && FiledOnVersion(d, payload)
    ensures FiledOnVersion(after, payload)
  {
  }

  lemma BuiltOnVersion(d: Desk, r: Request)
    requires BuildPayload(d, r).Ok?
    ensures FiledOnVersion(d, BuildPayload(d, r).value)
  {
  }

  lemma ApplyFiles(d: Desk, call: Call)
    requires Right(d) && AllFiledOnVersions(d)
    ensures AllFiledOnVersions(Apply(d, call))
  {
    var after := Apply(d, call);
    ApplyGrows(d, call);
    forall id | id in after.proposals ensures FiledOnVersion(after, after.proposals[id].payload) {
      if id in d.proposals {
        SamePayload(d, call, id);
        VersionsStay(d, after, d.proposals[id].payload);
      } else {
        NewPayload(d, call, id);
      }
    }
  }

  lemma SamePayload(d: Desk, call: Call, id: int)
    requires Right(d) && id in d.proposals
    ensures id in Apply(d, call).proposals && Apply(d, call).proposals[id].payload == d.proposals[id].payload
  {
    if call.Accept? && Outcomes(d, call).Ok? {
      AppliedWrites(d, d.proposals[call.id].payload, call.embeds);
    }
  }

  lemma NewPayload(d: Desk, call: Call, id: int)
    requires Right(d) && id !in d.proposals && id in Apply(d, call).proposals
    ensures FiledOnVersion(Apply(d, call), Apply(d, call).proposals[id].payload)
  {
    match call
    case Submit(request, submitter, reason) => BuiltOnVersion(d, request);
    case Accept(accepted, reviewer, hasRole, note, embeds) => AppliedWrites(d, d.proposals[accepted].payload, embeds);
    case _ =>
  }

  lemma {:induction false} HistoryWrote(calls: seq<Call>)
    ensures EditsWrote(Run(EmptyDesk, calls)) && AllFiledOnVersions(Run(EmptyDesk, calls))
  {
    if calls != [] {
      var before := Run(EmptyDesk, calls[..|calls| - 1]);
      HistoryIsRight(calls[..|calls| - 1]);
      HistoryWrote(calls[..|calls| - 1]);
      ApplyWrote(before, calls[|calls| - 1]);
      ApplyFiles(before, calls[|calls| - 1]);
    }
  }

  // ----- what an accepted edit replaces -----

  /** The accepted edits a pending edit would replace without having seen them. */
  function Unseen(d: Desk, id: int): nat
    requires id in d.proposals && d.proposals[id].payload.Edit?
  {
    EditsSince(d.audits, d.proposals[id].payload.target, d.proposals[id].payload.base)
  }

  ghost predicate Replaces(d: Desk, id: int, after: Desk)
    requires id in d.proposals && d.proposals[id].payload.Edit?
  {
    var payload := d.proposals[id].payload;
    var card, base := payload.target, payload.base;
    && card in d.cards && card in after.cards && after.cards[card].text == payload.text
    && Unseen(d, id) == d.cards[card].currentVersion - base
    && (Unseen(d, id) > 0 <==> base < d.cards[card].currentVersion)
    && (card, base) in d.versions && d.versions[(card, base)] != payload.text
    && (Unseen(d, id) == 0 ==> d.cards[card].text == d.versions[(card, base)])
  }

  lemma EditReplaces(d: Desk, id: int, reviewer: string, hasRole: bool, note: Option<string>, embeds: bool)
    requires Right(d) && EditsWrote(d) && AllFiledOnVersions(d)
    requires Accepted(d, id, reviewer, hasRole, note, embeds).Ok? && d.proposals[id].payload.Edit?
    ensures Replaces(d, id, Accepted(d, id, reviewer, hasRole, note, embeds).value)
  {
    assert FiledOnVersion(d, d.proposals[id].payload);
    AppliedWrites(d, d.proposals[id].payload, embeds);
  }

  /**
   In every run an accepted edit replaces, unseen, as many accepted edits as the card has versions
   after the one it was filed on: some exactly when that version was no longer the current one. If
   none, it replaces the very text it was filed on, by another one.
   */
  lemma AcceptedEditReplaces(calls: seq<Call>, id: int, reviewer: string, hasRole: bool, note: Option<string>, embeds: bool)
    requires var d := Run(EmptyDesk, calls);
             && Accepted(d, id, reviewer, hasRole, note, embeds).Ok?
             && id in d.proposals && d.proposals[id].payload.Edit?
    ensures var d := Run(EmptyDesk, calls); Replaces(d, id, Accepted(d, id, reviewer, hasRole, note, embeds).value)
  {
    HistoryIsRight(calls);
    HistoryWrote(calls);
    EditReplaces(Run(EmptyDesk, calls), id, reviewer, hasRole, note, embeds);
  }

  lemma NotBlank(s: string)
    requires s != "" && !IsSpace(s[0]) && !IsSpace(s[|s| - 1])
    ensures !Blank(s)
  {
  }

  lemma RunNext(calls: seq<Call>, call: Call)
    ensures Run(EmptyDesk, calls + [call]) == Apply(Run(EmptyDesk, calls), call)
  {
    assert (calls + [call])[..|calls|] == calls;
  }

  /** Two edits filed on version 1 and both accepted: the second one replaces the first one's text, unseen. */
  lemma SecondEditReplacesFirst()
    returns (calls: seq<Call>)
    ensures var d := Run(EmptyDesk, calls);
            var after := Apply(d, Accept(2, "r", true, None, true));
            && 1 in d.cards && d.cards[1] == Card(CardText("t", "b"), 2, false) && 2 in d.proposals
            && d.proposals[2].payload == Edit(1, 1, CardText("t", "c")) && Unseen(d, 2) == 1
            && 1 in after.cards && after.cards[1] == Card(CardText("t", "c"), 3, false)
  {
    var a, b, c := CardText("t", "a"), CardText("t", "b"), CardText("t", "c");
    NotBlank("t");
    NotBlank("b");
    NotBlank("c");
    NotBlank("r");
    var none: seq<Call> := [];
    var added := none + [AddCard(a)];
    RunNext(none, AddCard(a));
    var one := added + [SuggestEdit(1, 1, b, "u", "r")];
    RunNext(added, SuggestEdit(1, 1, b, "u", "r"));
    var two := one + [SuggestEdit(1, 1, c, "u", "r")];
    RunNext(one, SuggestEdit(1, 1, c, "u", "r"));
    calls := two + [Accept(1, "r", true, None, true)];
    RunNext(two, Accept(1, "r", true, None, true));
    HistoryIsRight(calls);
    HistoryWrote(calls);
  }
}
