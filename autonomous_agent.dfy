/** ai-foundry-agents/3_autonomous_agent.py: the purchase-order check, the
    ERP posting stub and the orchestrator's keyword router. The agents, the
    shared thread and the Document Intelligence extraction are not modelled:
    each round's latest thread message is an input. */
module AutonomousAgent {
  import opened Wrappers
  import opened Text

  /** A purchase order of the in-memory ERP stub; amounts are in cents. */
  datatype PurchaseOrder = PurchaseOrder(vendor: string, amountCents: int, status: string)

  /** `_FAKE_PO`. */
  const PurchaseOrders: map<string, PurchaseOrder> := map[
    "PO-1001" := PurchaseOrder("Contoso Ltd", 125000, "Open"),
    "PO-1002" := PurchaseOrder("Fabrikam Inc", 98075, "Open")
  ]

  /** One entry of the `delta` dictionary. */
  datatype Delta =
    | Reason(text: string)
    | AmountMismatch(poAmountCents: int, invAmountCents: int)
    | VendorMismatch(poVendor: string, invVendor: string)

  datatype Validation = Validation(ok: bool, delta: map<string, Delta>)

  /** The PO's vendor differs from the invoice's: only checked when the
      invoice names a (non-empty) vendor, and compared ignoring case. */
  predicate VendorDiffers(poVendor: string, vendor: Option<string>) {
    vendor.Some? && vendor.value != "" && AsciiLower(poVendor) != AsciiLower(vendor.value)
  }

  /** `tool_validate_against_po`. Whether the amounts differ by more than the
      tolerance is the input `amountMismatch`; `totalCents` is the invoice
      total as it is reported back. */
  method ValidateAgainstPo(po: Option<string>, totalCents: int, vendor: Option<string>, amountMismatch: bool)
    returns (result: Validation)
    ensures result.ok <==> result.delta == map[]
    ensures (po.None? || po.value !in PurchaseOrders) ==>
              result == Validation(false, map["reason" := Reason("PO not found")])
    ensures po.Some? && po.value in PurchaseOrders ==>
              var row := PurchaseOrders[po.value];
              && result.delta.Keys <= {"amount_mismatch", "vendor_mismatch"}
              && ("amount_mismatch" in result.delta <==> amountMismatch)
              && (amountMismatch ==> result.delta["amount_mismatch"] == AmountMismatch(row.amountCents, totalCents))
              && ("vendor_mismatch" in result.delta <==> VendorDiffers(row.vendor, vendor))
              && (VendorDiffers(row.vendor, vendor) ==>
                    result.delta["vendor_mismatch"] == VendorMismatch(row.vendor, vendor.value))
  {
    if po.None? || po.value !in PurchaseOrders {
      var notFound := map["reason" := Reason("PO not found")];
      assert "reason" in notFound;
      return Validation(false, notFound);
    }
    var row := PurchaseOrders[po.value];
    var deltas: map<string, Delta> := map[];
    if amountMismatch {
      deltas := deltas["amount_mismatch" := AmountMismatch(row.amountCents, totalCents)];
    }
    if vendor.Some? && vendor.value != "" && AsciiLower(row.vendor) != AsciiLower(vendor.value) {
      deltas := deltas["vendor_mismatch" := VendorMismatch(row.vendor, vendor.value)];
    }
    result := Validation(|deltas| == 0, deltas);
  }

  /** For every purchase order, a vendor named in another case than the
      PO's is not a mismatch. */
  lemma VendorCaseInsensitive(po: string, vendor: string)
    requires po in PurchaseOrders
    requires AsciiLower(vendor) == AsciiLower(PurchaseOrders[po].vendor)
    ensures !VendorDiffers(PurchaseOrders[po].vendor, Some(vendor))
  {
  }

  datatype Posting = Posting(ok: bool, voucherId: string)

  const VoucherPrefix := "VCHR-"
  const VoucherSuffix := "-001"

  /** `tool_post_to_erp`: always succeeds; the voucher wraps the invoice id,
      or "NA" when the argument is absent. A present value is given as its
      formatted text. */
  function PostToErp(invoiceId: Option<string>): (r: Posting)
    ensures r.ok
    ensures |r.voucherId| >= |VoucherPrefix| + |VoucherSuffix|
    ensures r.voucherId[..|VoucherPrefix|] == VoucherPrefix
    ensures r.voucherId[|r.voucherId| - |VoucherSuffix|..] == VoucherSuffix
  {
    var v := VoucherPrefix + invoiceId.GetOr("NA") + VoucherSuffix;
    assert v[..|VoucherPrefix|] == VoucherPrefix;
    assert v[|v| - |VoucherSuffix|..] == VoucherSuffix;
    Posting(true, v)
  }

  /** The invoice id a voucher was issued for. */
  function VoucherInvoice(voucherId: string): (r: Option<string>)
    ensures r.Some? ==> voucherId == VoucherPrefix + r.value + VoucherSuffix
  {
    if |voucherId| >= |VoucherPrefix| + |VoucherSuffix|
       && voucherId[..|VoucherPrefix|] == VoucherPrefix
       && voucherId[|voucherId| - |VoucherSuffix|..] == VoucherSuffix
    then
      var id := voucherId[|VoucherPrefix|..|voucherId| - |VoucherSuffix|];
      assert voucherId == voucherId[..|VoucherPrefix|] + id + voucherId[|voucherId| - |VoucherSuffix|..];
      Some(id)
    else None
  }

  /** The invoice id (or "NA") can be read back from its voucher, so distinct
      invoice ids get distinct vouchers. */
  lemma VoucherRoundTrip(invoiceId: Option<string>)
    ensures VoucherInvoice(PostToErp(invoiceId).voucherId) == Some(invoiceId.GetOr("NA"))
  {
    var id := invoiceId.GetOr("NA");
    var v := PostToErp(invoiceId).voucherId;
    assert v[|VoucherPrefix|..|v| - |VoucherSuffix|] == id;
  }

  lemma {:induction false} VoucherInjective(a: Option<string>, b: Option<string>)
    requires PostToErp(a).voucherId == PostToErp(b).voucherId
    ensures a.GetOr("NA") == b.GetOr("NA")
  {
    VoucherRoundTrip(a);
    VoucherRoundTrip(b);
  }

  /** What one orchestrator round does after reading the latest message. */
  datatype Step = RunExtractor | RunValidator | RunPoster | Nudge

  const NudgeMessage := "Which agent should run next: extractor, validator, or poster? Reply with one word."

  const Rounds := 8

  /** The text the router inspects: the latest message (or "" when the thread
      is empty), stripped and lower-cased. */
  function RoutingText(latest: Option<string>): string
  {
    AsciiLower(Strip(latest.GetOr(""), PythonWhitespace))
  }

  /** The routed text is "" for an empty thread, and exactly for a message
      made of whitespace only. */
  lemma RoutingTextSpec(latest: Option<string>)
    ensures latest.None? ==> RoutingText(latest) == ""
    ensures RoutingText(latest) == "" <==>
              forall k :: 0 <= k < |latest.GetOr("")| ==> IsSpace(PythonWhitespace, latest.GetOr("")[k])
  {
    StripBlank(latest.GetOr(""), PythonWhitespace);
  }

  /** The routed text neither starts nor ends with whitespace and holds no
      upper-case ASCII letter. */
  lemma RoutingTextShape(latest: Option<string>)
    ensures var r := RoutingText(latest);
              r == [] || (!IsSpace(PythonWhitespace, r[0]) && !IsSpace(PythonWhitespace, r[|r| - 1]))
    ensures var r := RoutingText(latest);
              forall k :: 0 <= k < |r| ==> !('A' <= r[k] <= 'Z')
  {
    LowerEnds(Strip(latest.GetOr(""), PythonWhitespace));
  }

  /** Lower-casing keeps a string free of whitespace at its ends. */
  lemma LowerEnds(s: string)
    requires s == [] || (!IsSpace(PythonWhitespace, s[0]) && !IsSpace(PythonWhitespace, s[|s| - 1]))
    ensures var r := AsciiLower(s);
              r == [] || (!IsSpace(PythonWhitespace, r[0]) && !IsSpace(PythonWhitespace, r[|r| - 1]))
  {
    if s != [] {
      LowerKeepsSpace(s[0]);
      LowerKeepsSpace(s[|s| - 1]);
    }
  }

  lemma LowerKeepsSpace(c: char)
    ensures IsSpace(PythonWhitespace, LowerChar(c)) == IsSpace(PythonWhitespace, c)
  {
  }

  /** Each longer keyword contains a shorter one tested in the same branch. */
  lemma {:induction false} KeywordsSubsumed(text: string)
    ensures Contains(text, "extractor") ==> Contains(text, "extract")
    ensures Contains(text, "poster") ==> Contains(text, "post")
    ensures Contains(text, "ready_to_post") ==> Contains(text, "post")
  {
    if Contains(text, "extractor") {
      assert "extract" + "or" == "extractor";
      ContainsPrefix(text, "extract", "or");
    }
    if Contains(text, "poster") {
      assert "post" + "er" == "poster";
      ContainsPrefix(text, "post", "er");
    }
    if Contains(text, "ready_to_post") {
      assert "ready_to_" + "post" == "ready_to_post";
      ContainsSuffix(text, "ready_to_", "post");
    }
  }

  /** The keyword tests in the order written. Every longer keyword contains a
      shorter one tested beside it except "validator", so "extract",
      "validate", "validator" and "post" decide; the earliest keyword in that order wins. */
  function Route(text: string): (r: Step)
    ensures r == RunExtractor <==> Contains(text, "extract")
    ensures r == RunValidator <==>
              !Contains(text, "extract") && (Contains(text, "validate") || Contains(text, "validator"))
    ensures r == RunPoster <==>
              !Contains(text, "extract") && !Contains(text, "validate") && !Contains(text, "validator")
              && Contains(text, "post")
    ensures r == Nudge <==>
              !Contains(text, "extract") && !Contains(text, "validate") && !Contains(text, "validator")
              && !Contains(text, "post")
  {
    KeywordsSubsumed(text);
    if Contains(text, "extract") || Contains(text, "extractor") then RunExtractor
    else if Contains(text, "validate") || Contains(text, "validator") then RunValidator
    else if Contains(text, "post") || Contains(text, "poster") || Contains(text, "ready_to_post") then RunPoster
    else Nudge
  }

  /** The step one round takes on its latest message: the specification of
      the `NextStep` method, and what the round-by-round lemmas reason about. */
  function Decide(latest: Option<string>): Step {
    Route(RoutingText(latest))
  }

  /** Each round's step, given each round's latest message. */
  function Decisions(latest: seq<Option<string>>): (d: seq<Step>)
    ensures |d| == |latest|
  {
    if latest == [] then [] else [Decide(latest[0])] + Decisions(latest[1..])
  }

  lemma {:induction false} DecisionAt(latest: seq<Option<string>>, k: nat)
    requires k < |latest|
    ensures Decisions(latest)[k] == Decide(latest[k])
  {
    if k > 0 {
      DecisionAt(latest[1..], k - 1);
    }
  }

  /** The steps the orchestration takes from round `round` on, given the step
      each round would choose: that round's step, then, unless it ran the
      poster, the later rounds' steps. */
  function Orchestrate(decisions: seq<Step>, round: nat): (steps: seq<Step>)
    requires round <= Rounds <= |decisions|
    decreases Rounds - round
  {
    if round == Rounds then []
    else if decisions[round].RunPoster? then [decisions[round]]
    else [decisions[round]] + Orchestrate(decisions, round + 1)
  }

  /** The run from `round` on: at most the remaining rounds, each taking its
      own decision; the poster ends the run, every other step goes on to the
      next round, and the run stops early only on the poster. */
  lemma {:induction false} OrchestrateSpec(decisions: seq<Step>, round: nat)
    requires round <= Rounds <= |decisions|
    ensures var steps := Orchestrate(decisions, round);
      && |steps| <= Rounds - round
      && (round < Rounds ==> 1 <= |steps|)
      && (forall i :: 0 <= i < |steps| ==> steps[i] == decisions[round + i])
      && (forall i :: 0 <= i < |steps| - 1 ==> !steps[i].RunPoster?)
      && (|steps| < Rounds - round ==> steps[|steps| - 1].RunPoster?)
    decreases Rounds - round
  {
    if round < Rounds && !decisions[round].RunPoster? {
      OrchestrateSpec(decisions, round + 1);
      var rest := Orchestrate(decisions, round + 1);
      var steps := Orchestrate(decisions, round);
      assert steps == [decisions[round]] + rest;
      forall i | 0 < i < |steps| ensures steps[i] == decisions[round + i] {
        assert steps[i] == rest[i - 1];
      }
    }
  }

  lemma OrchestrateStep(decisions: seq<Step>, round: nat)
    requires round < Rounds <= |decisions|
    ensures Orchestrate(decisions, round)
         == if decisions[round].RunPoster? then [decisions[round]]
            else [decisions[round]] + Orchestrate(decisions, round + 1)
  {
  }

  /** The orchestration loop of `main`: the whole run. */
  lemma RunSpec(latest: seq<Option<string>>)
    requires |latest| >= Rounds
    ensures var steps := Orchestrate(Decisions(latest), 0);
      && 1 <= |steps| <= Rounds
      && (forall i :: 0 <= i < |steps| ==> steps[i] == Route(RoutingText(latest[i])))
      && (forall i :: 0 <= i < |steps| - 1 ==> !steps[i].RunPoster?)
      && (|steps| < Rounds ==> steps[|steps| - 1].RunPoster?)
  {
    OrchestrateSpec(Decisions(latest), 0);
    forall i | 0 <= i < |latest| ensures Decisions(latest)[i] == Route(RoutingText(latest[i])) {
      DecisionAt(latest, i);
    }
  }

  /** One round's routing: strip and lower-case the latest message, then
      test the keywords. `Decide` is its specification; the keyword clauses
      say what that specification means. */
  method NextStep(latest: Option<string>) returns (step: Step)
    ensures step == Decide(latest)
    ensures step == RunExtractor <==> Contains(RoutingText(latest), "extract")
    ensures step == RunValidator <==>
              !Contains(RoutingText(latest), "extract")
              && (Contains(RoutingText(latest), "validate") || Contains(RoutingText(latest), "validator"))
    ensures step == RunPoster <==>
              !Contains(RoutingText(latest), "extract") && !Contains(RoutingText(latest), "validate")
              && !Contains(RoutingText(latest), "validator") && Contains(RoutingText(latest), "post")
    ensures latest.None? ==> step == Nudge
  {
    var text := RoutingText(latest);
    step := Route(text);
    if latest.None? {
      RoutingTextSpec(latest);
      assert !Contains(text, "extract") && !Contains(text, "validate") && !Contains(text, "post");
    }
  }

  /** What one round of the loop adds to the steps taken so far. */
  lemma LoopStep(latest: seq<Option<string>>, round: nat, before: seq<Step>, step: Step)
    requires round < Rounds <= |latest|
    requires step == Decide(latest[round])
    requires before + Orchestrate(Decisions(latest), round) == Orchestrate(Decisions(latest), 0)
    ensures step.RunPoster? ==> before + [step] == Orchestrate(Decisions(latest), 0)
    ensures !step.RunPoster? ==>
      (before + [step]) + Orchestrate(Decisions(latest), round + 1) == Orchestrate(Decisions(latest), 0)
  {
    var decisions := Decisions(latest);
    DecisionAt(latest, round);
    OrchestrateStep(decisions, round);
    if !step.RunPoster? {
      var later := Orchestrate(decisions, round + 1);
      assert (before + [step]) + later == before + ([step] + later);
    }
  }

  /** The orchestration loop of `main`, `Rounds` rounds at most. */
  method RunLoop(latest: seq<Option<string>>) returns (steps: seq<Step>)
    requires |latest| >= Rounds
    ensures steps == Orchestrate(Decisions(latest), 0)
  {
    steps := [];
    var round := 0;
    while round < Rounds
      invariant 0 <= round <= Rounds
      invariant steps + Orchestrate(Decisions(latest), round) == Orchestrate(Decisions(latest), 0)
    {
      var step := NextStep(latest[round]);
      LoopStep(latest, round, steps, step);
      steps := steps + [step];
      if step.RunPoster? {
        break;
      }
      round := round + 1;
    }
  }
}
