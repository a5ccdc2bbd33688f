/** The session controller: the user's actions on the code store, and the
    Generate branch that queries the lookup service, builds the payload,
    asks the completion service and shows the formatted, classified reply.
    Both services are parameters: the lookup as its successful `data` list
    for a query, the completion as its reply text for a payload. */
module Session {
  import opened CodeStore
  import opened Payload
  import opened Reformat
  import opened ReformatCases
  import opened Verdict

  // ---------------------------------------------------------------------
  // User actions on the store

  datatype Action = AddCode(kind: Kind, code: string) | Generate | ClearAllCodes

  /** The effect of one action on the lists; Generate reads them only. */
  function Step(s: Store, a: Action): Store
  {
    match a
    case AddCode(kind, code) => Add(s, kind, code)
    case Generate => s
    case ClearAllCodes => ClearAll(s)
  }

  /** The store after a session's actions, oldest first. */
  function After(actions: seq<Action>): Store
  {
    if |actions| == 0 then Empty
    else Step(After(actions[..|actions| - 1]), actions[|actions| - 1])
  }

  /** Index just past the last "Clear All Codes", or 0 when there is none. */
  function LastClear(actions: seq<Action>): (k: nat)
    ensures k <= |actions|
    ensures k > 0 ==> actions[k - 1].ClearAllCodes?
    ensures forall i :: k <= i < |actions| ==> !actions[i].ClearAllCodes?
  {
    if |actions| == 0 then 0
    else if actions[|actions| - 1].ClearAllCodes? then |actions|
    else LastClear(actions[..|actions| - 1])
  }

  /** The code one action enters into the list of `kind`, if any. */
  function Entered(a: Action, kind: Kind): seq<string>
  {
    if a.AddCode? && a.kind == kind && a.code != [] then [a.code] else []
  }

  /** The non-empty codes of one kind added by `actions`, in order. */
  function Added(actions: seq<Action>, kind: Kind): seq<string>
  {
    if |actions| == 0 then [] else Entered(actions[0], kind) + Added(actions[1..], kind)
  }

  lemma {:induction false} AddedSnoc(actions: seq<Action>, a: Action, kind: Kind)
    ensures Added(actions + [a], kind) == Added(actions, kind) + Entered(a, kind)
    decreases |actions|
  {
    if |actions| == 0 {
      assert [a][1..] == [];
    } else {
      assert (actions + [a])[1..] == actions[1..] + [a];
      AddedSnoc(actions[1..], a, kind);
    }
  }

  /** Each list holds exactly the non-empty codes of its kind added since
      the last "Clear All Codes", in the order they were added, duplicates
      included; Generate changes nothing. */
  lemma {:induction false} AfterIsAddedSinceClear(actions: seq<Action>, kind: Kind)
    ensures After(actions).Codes(kind) == Added(actions[LastClear(actions)..], kind)
    decreases |actions|
  {
    if |actions| > 0 {
      var init := actions[..|actions| - 1];
      var a := actions[|actions| - 1];
      if a.ClearAllCodes? {
        LastPressClears(actions);
      } else {
        AfterIsAddedSinceClear(init, kind);
        LastPressKeeps(actions, kind);
      }
    }
  }

  /** A session ending in "Clear All Codes" has both lists empty. */
  lemma LastPressClears(actions: seq<Action>)
    requires |actions| > 0 && actions[|actions| - 1].ClearAllCodes?
    ensures LastClear(actions) == |actions|
    ensures After(actions).Codes(Icd10) == [] && After(actions).Codes(Cpt) == []
    ensures actions[LastClear(actions)..] == []
  {
  }

  /** One more press other than a clear extends the entries since the last
      clear by that press. */
  lemma LastPressKeeps(actions: seq<Action>, kind: Kind)
    requires |actions| > 0 && !actions[|actions| - 1].ClearAllCodes?
    requires var init := actions[..|actions| - 1];
      After(init).Codes(kind) == Added(init[LastClear(init)..], kind)
    ensures After(actions).Codes(kind) == Added(actions[LastClear(actions)..], kind)
  {
    var init := actions[..|actions| - 1];
    var a := actions[|actions| - 1];
    var k := LastClear(init);
    var seg := init[k..];
    assert LastClear(actions) == k;
    assert actions[k..] == seg + [a];
    AddedSnoc(seg, a, kind);
    StepCodes(After(init), a, kind);
  }

  /** One press other than "Clear All Codes" extends a list by at most the
      entry of that press. */
  lemma StepCodes(s: Store, a: Action, kind: Kind)
    requires !a.ClearAllCodes?
    ensures Step(s, a).Codes(kind) == s.Codes(kind) + Entered(a, kind)
  {
    if a.AddCode? && a.kind != kind {
      assert kind == Other(a.kind) by {
        match a.kind
        case Icd10 => {}
        case Cpt => {}
      }
    }
  }

  // ---------------------------------------------------------------------
  // The Generate branch

  /** A call to one of the two services. */
  datatype Call = Lookup(query: string) | Complete(payload: Payload)

  /** What the branch puts on the page. */
  datatype Screen = Warning(message: string) | Shown(verdict: Verdict, text: string)

  /** The calls made, in order, and the resulting screen. */
  datatype Evaluation = Evaluation(calls: seq<Call>, screen: Screen)

  const MissingCodes: string := "Please enter both ICD-10 and CPT codes."

  /** The lookup query: all ICD-10 codes, then all CPT codes, comma-joined. */
  function LookupQuery(s: Store): string
  {
    Join(s.icd10 + s.cpt)
  }

  /** Splitting the query on commas gives the ICD-10 codes followed by the
      CPT codes, as long as no code holds a comma. */
  lemma LookupQueryOrder(s: Store)
    ensures s.icd10 + s.cpt != [] && (forall c :: c in s.icd10 + s.cpt ==> ',' !in c) ==>
              Split(LookupQuery(s)) == s.icd10 + s.cpt
  {
    if s.icd10 + s.cpt != [] && (forall c :: c in s.icd10 + s.cpt ==> ',' !in c) {
      SplitJoin(s.icd10 + s.cpt);
    }
  }

  /** The Generate button. With both lists non-empty: one lookup with the
      joined codes, the payload built from its reply, one completion call,
      and the formatted reply under its heading. Otherwise a warning and no
      call at all. */
  function RunGenerate(s: Store, lookup: string -> seq<Entry>, complete: Payload -> string): (e: Evaluation)
    ensures e.screen.Warning? <==> (s.icd10 == [] || s.cpt == [])
    ensures e.screen.Warning? ==> e.calls == [] && e.screen.message == MissingCodes
    ensures e.screen.Shown? ==>
      && |e.calls| == 2
      && e.calls[0].Lookup? && e.calls[1].Complete?
      && e.calls[0].query == Join(s.icd10 + s.cpt)
      && ((forall c :: c in s.icd10 + s.cpt ==> ',' !in c) ==> Split(e.calls[0].query) == s.icd10 + s.cpt)
      && GroupFollows(e.calls[1].payload.icd10, s.icd10, lookup(e.calls[0].query))
      && GroupFollows(e.calls[1].payload.cptCode, s.cpt, lookup(e.calls[0].query))
      && e.screen.text == ReformatBullets(complete(e.calls[1].payload))
      && (e.screen.verdict == Relevant <==> e.screen.text == AllRelevantLine)
  {
    if s.icd10 != [] && s.cpt != [] then
      var query := LookupQuery(s);
      LookupQueryOrder(s);
      var payload := BuildPayload(s.icd10, s.cpt, lookup(query));
      var reply := complete(payload);
      Evaluation([Lookup(query), Complete(payload)], Shown(Classify(reply), ReformatBullets(reply)))
    else
      Evaluation([], Warning(MissingCodes))
  }

  // ---------------------------------------------------------------------
  // End-to-end cases

  /** Whatever the codes, a reply saying all codes are relevant, with or
      without its period, is shown under the "Relevant" heading without
      the period. */
  lemma AllRelevantScenario(s: Store, lookup: string -> seq<Entry>, complete: Payload -> string)
    requires s.icd10 != [] && s.cpt != []
    requires forall p :: complete(p) == AllRelevantLine || complete(p) == AllRelevantLine + "."
    ensures RunGenerate(s, lookup, complete).screen == Shown(Relevant, AllRelevantLine)
  {
    var e := RunGenerate(s, lookup, complete);
    AllRelevantReply(complete(e.calls[1].payload));
  }

  /** One ICD-10 code and one CPT code make the query `A01.0,99213`. */
  lemma QueryScenario(s: Store)
    requires s == Store(["A01.0"], ["99213"])
    ensures LookupQuery(s) == "A01.0,99213"
  {
    var xs := s.icd10 + s.cpt;
    assert xs == ["A01.0", "99213"];
    assert xs[1..] == ["99213"];
    assert Join(xs) == "A01.0" + "," + "99213";
  }

  /** A reply listing two codes on one line is shown under the
      "Irrelevant" heading, with a newline in front of each code and the
      space before the second newline kept. */
  lemma IrrelevantScenario(s: Store, lookup: string -> seq<Entry>, complete: Payload -> string)
    requires s.icd10 != [] && s.cpt != []
    requires forall p :: complete(p) == "- 99201 - 45380"
    ensures RunGenerate(s, lookup, complete).screen == Shown(Irrelevant, "\n- 99201 \n- 45380")
  {
    var e := RunGenerate(s, lookup, complete);
    var reply := complete(e.calls[1].payload);
    assert reply == "- 99201 - 45380";
    ClassifyCodeList(reply, 2);
    TwoBulletsOnOneLine(reply);
  }

  /** Codes entered through the panels, with an empty entry ignored and a
      clear in between, end up in the lists in entry order. */
  lemma StoreScenario(actions: seq<Action>)
    requires actions == [AddCode(Cpt, "11111"), ClearAllCodes, AddCode(Icd10, "A01.0"),
                         AddCode(Cpt, ""), AddCode(Cpt, "99213"), Generate]
    ensures After(actions) == Store(["A01.0"], ["99213"])
  {
    AfterIsAddedSinceClear(actions, Icd10);
    AfterIsAddedSinceClear(actions, Cpt);
    assert LastClear(actions) == 2;
    var rest := actions[2..];
    assert rest[1..] == [AddCode(Cpt, ""), AddCode(Cpt, "99213"), Generate];
    assert rest[1..][1..] == [AddCode(Cpt, "99213"), Generate];
    assert rest[1..][1..][1..] == [Generate];
    var r3, r2, r1 := rest[1..][1..][1..], rest[1..][1..], rest[1..];
    assert Added(r3[1..], Icd10) == [] && Added(r3[1..], Cpt) == [];
    assert Added(r3, Icd10) == [] && Added(r3, Cpt) == [];
    assert Added(r2, Icd10) == [] && Added(r2, Cpt) == ["99213"];
    assert Added(r1, Icd10) == [] && Added(r1, Cpt) == ["99213"];
    assert Added(rest, Icd10) == ["A01.0"];
    assert Added(rest, Cpt) == ["99213"];
  }
}
