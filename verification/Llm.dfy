/** The generative boundary: fitting a prompt to its budget, walking the fallback ladder, and attributing the reply
    (services/adapters/llm.py, services/adapters/models.py:285-323).

What a provider answers, and how a condensed reply parses, are arbitrary functions. */
module Llm {
  import opened Prelude
  import opened PromptBudget

  datatype Provider = Google | Scaleway | Mistral | Ollama

  datatype Spec = Spec(provider: Provider, window: nat, maxOutput: nat)

  /** One rung of the ladder: who is asked, for which model. */
  datatype Rung = Rung(provider: Provider, model: string)

  /** How a provider took one request.  An unwired Google rung, a 5xx, a 429 or no response is an outage;
      any other 4xx is a rejection. */
  datatype Outcome = Answer(body: string) | Down | Refusal

  datatype Failure = Outage | Rejected | Empty | NoContext | Malformed

  /** One request a tier put to a provider, and what came of it. */
  datatype Attempt = Attempt(rung: Rung, prompt: string, cap: Option<nat>, result: Result<string, Failure>)

  datatype Served = Served(rung: Rung, replyChars: nat)

  datatype LedgerRow = LedgerRow(role: string, requested: string, served: Served)

  /** A share of a window, truncated toward zero. */
  function Truncated(window: real, share: real): int {
    if window * share >= 0.0 then (window * share).Floor else -(-(window * share)).Floor
  }

  datatype Config = Config(
    isLocal: bool, margin: real, catalog: map<string, Spec>, builtins: map<string, Spec>,
    roles: map<string, string>, builtinRoles: map<string, string>, rerank: string,
    localFloor: string,
    scalewayFallback: map<string, string>, scalewayFlagship: string,
    mistralFallback: map<string, string>, mistralFlagship: string,
    condense: (string, nat) -> string,         // the condensing prompt
    summaryIn: string -> Option<string>)       // the summary a condensing reply parses to, if it parses
  {
    function SpecOf(model: string): Option<Spec> {
      if model in catalog then Some(catalog[model])
      else if model in builtins then Some(builtins[model])
      else None
    }

    /** The role's model: the store's, else the builtin one, else the rerank default.  An empty name counts as none. */
    function RoleName(role: string): string {
      if role in roles && roles[role] != "" then roles[role]
      else if role in builtinRoles && builtinRoles[role] != "" then builtinRoles[role]
      else rerank
    }

    /** The optimal window less the safety margin, truncated toward zero. */
    function Budget(spec: Spec): int {
      Truncated(spec.window as real, 1.0 - margin)
    }

    /** The model that answers on a local-only box. */
    function LocalFor(model: string): string {
      match SpecOf(model)
      case Some(spec) => if spec.provider == Ollama then model else localFloor
      case None => localFloor
    }

    function ScalewayFor(model: string): string {
      if model in scalewayFallback then scalewayFallback[model] else scalewayFlagship
    }

    function MistralFor(model: string): string {
      if model in mistralFallback then mistralFallback[model] else mistralFlagship
    }

    function ProviderOf(model: string): Provider {
      match SpecOf(model)
      case Some(spec) => spec.provider
      case None => Ollama
    }

    /** The rungs a call for this model may walk, top first. */
    function Rungs(model: string): seq<Rung> {
      if isLocal then [Rung(Ollama, LocalFor(model))]
      else
        match ProviderOf(model)
        case Google => [Rung(Google, model)] + Beneath(ScalewayFor(model))
        case Scaleway => Beneath(model)
        case Mistral => [Rung(Mistral, model)]
        case Ollama => [Rung(Ollama, model)]
    }

    function Beneath(scaleway: string): seq<Rung> {
      [Rung(Scaleway, scaleway), Rung(Mistral, MistralFor(scaleway)), Rung(Ollama, localFloor)]
    }

    function OutputCap(override: Option<nat>, model: string): Option<nat> {
      match SpecOf(model)
      case None => override
      case Some(spec) =>
        Some(if override.Some? && override.value < spec.maxOutput then override.value else spec.maxOutput)
    }

    /** A local-only box whose own model has to stand in for the one requested. */
    predicate Substitutes(model: string) {
      isLocal && LocalFor(model) != model
    }
  }

  /** A row of the store's catalog stands for its model whatever the builtin one says; the builtin row stands where the
      store has none; and a name in neither is unmapped. */
  lemma CatalogFirst(cfg: Config, model: string, spec: Spec)
    ensures cfg.(catalog := cfg.catalog[model := spec]).SpecOf(model) == Some(spec)
    ensures model !in cfg.catalog ==> cfg.(builtins := cfg.builtins[model := spec]).SpecOf(model) == Some(spec)
    ensures model !in cfg.catalog && model !in cfg.builtins ==> cfg.SpecOf(model).None?
  {
  }

  /** A role goes to the model the store assigns it, else to the builtin one, else to the rerank default, and an empty
      assignment is none. */
  lemma RoleFallsBack(cfg: Config, role: string, name: string)
    ensures name != "" ==> cfg.(roles := cfg.roles[role := name]).RoleName(role) == name
    ensures name != "" && (role in cfg.roles ==> cfg.roles[role] == "") ==>
              cfg.(builtinRoles := cfg.builtinRoles[role := name]).RoleName(role) == name
    ensures (role in cfg.roles ==> cfg.roles[role] == "")
            && (role in cfg.builtinRoles ==> cfg.builtinRoles[role] == "") ==>
              cfg.RoleName(role) == cfg.rerank
  {
  }

  /** Substituting once is enough: the stand-in stands in for itself. */
  lemma SubstitutesOnce(cfg: Config, model: string)
    ensures !cfg.Substitutes(cfg.LocalFor(model))
  {
  }

  // ----- what a call owes its caller

  /** The ladder was walked from the top, with one prompt, each rung under its own model's cap, going on past a rung
      exactly when it was out; the last rung tried gave the result. */
  ghost predicate Descends(
    cfg: Config, rungs: seq<Rung>, tried: seq<Attempt>, prompt: string, override: Option<nat>,
    result: Result<string, Failure>)
  {
    && 0 < |tried| <= |rungs|
    && (forall k :: 0 <= k < |tried| ==>
          && tried[k].rung == rungs[k]
          && tried[k].prompt == prompt
          && tried[k].cap == cfg.OutputCap(override, rungs[k].model))
    && (forall k :: 0 <= k < |tried| - 1 ==> tried[k].result == Err(Outage))
    && tried[|tried| - 1].result == result
    && (result == Err(Outage) ==> |tried| == |rungs|)
  }

  /** A rung is tried exactly when every rung above it was tried and out. */
  lemma TriedExactly(
    cfg: Config, rungs: seq<Rung>, tried: seq<Attempt>, prompt: string, override: Option<nat>,
    result: Result<string, Failure>, k: nat)
    requires Descends(cfg, rungs, tried, prompt, override, result) && k < |rungs|
    ensures k < |tried| <==> forall j :: 0 <= j < k ==> j < |tried| && tried[j].result == Err(Outage)
  {
    if k >= |tried| {
      assert tried[|tried| - 1].result == result;
    }
  }

  /** An outage reaches the caller only where nothing stands beneath the rung: a model on Mistral, asked for by name. */
  lemma OutageEscapes(
    cfg: Config, model: string, tried: seq<Attempt>, prompt: string, override: Option<nat>,
    result: Result<string, Failure>)
    requires Descends(cfg, cfg.Rungs(model), tried, prompt, override, result)
    requires forall k :: 0 <= k < |tried| && tried[k].rung.provider == Ollama ==> tried[k].result != Err(Outage)
    ensures result == Err(Outage) ==> !cfg.isLocal && cfg.ProviderOf(model) == Mistral
  {
    if result == Err(Outage) {
      var last := |tried| - 1;
      assert tried[last].rung == cfg.Rungs(model)[last];
    }
  }

  /** Who is asked, and in which order, once the ladder is written out: on the box the box's own model and nobody else;
      off it a Google model, its Scaleway catch, that one's Mistral catch and the local floor; a Scaleway model, its
      Mistral catch and the floor; a Mistral or a local model alone, and an unmapped name as a local one.  Each comes
      after the outage of the one before. */
  lemma AskedInOrder(
    cfg: Config, model: string, tried: seq<Attempt>, prompt: string, override: Option<nat>,
    result: Result<string, Failure>)
    requires Descends(cfg, cfg.Rungs(model), tried, prompt, override, result)
    ensures tried != [] && forall k :: 0 <= k < |tried| - 1 ==> tried[k].result == Err(Outage)
    ensures cfg.isLocal ==>
              && |tried| == 1
              && tried[0].rung == Rung(Ollama, if Mapped(cfg, model, Ollama) then model else cfg.localFloor)
    ensures !cfg.isLocal && Mapped(cfg, model, Google) ==>
              var catch := if model in cfg.scalewayFallback then cfg.scalewayFallback[model] else cfg.scalewayFlagship;
              && |tried| <= 4 && (result == Err(Outage) ==> |tried| == 4)
              && tried[0].rung == Rung(Google, model)
              && (|tried| > 1 ==> tried[1].rung == Rung(Scaleway, catch))
              && (|tried| > 2 ==> tried[2].rung == Rung(Mistral, if catch in cfg.mistralFallback
                                                                 then cfg.mistralFallback[catch]
                                                                 else cfg.mistralFlagship))
              && (|tried| > 3 ==> tried[3].rung == Rung(Ollama, cfg.localFloor))
    ensures !cfg.isLocal && Mapped(cfg, model, Scaleway) ==>
              && |tried| <= 3 && (result == Err(Outage) ==> |tried| == 3)
              && tried[0].rung == Rung(Scaleway, model)
              && (|tried| > 1 ==> tried[1].rung == Rung(Mistral, if model in cfg.mistralFallback
                                                                 then cfg.mistralFallback[model]
                                                                 else cfg.mistralFlagship))
              && (|tried| > 2 ==> tried[2].rung == Rung(Ollama, cfg.localFloor))
    ensures !cfg.isLocal && Mapped(cfg, model, Mistral) ==> |tried| == 1 && tried[0].rung == Rung(Mistral, model)
    ensures !cfg.isLocal && (Mapped(cfg, model, Ollama) || (model !in cfg.catalog && model !in cfg.builtins)) ==>
              |tried| == 1 && tried[0].rung == Rung(Ollama, model)
  {
    assert forall k :: 0 <= k < |tried| ==> tried[k].rung == cfg.Rungs(model)[k];
  }

  /** The catalog's row names the provider, or, where it has none, the builtin one. */
  predicate Mapped(cfg: Config, model: string, provider: Provider) {
    if model in cfg.catalog then cfg.catalog[model].provider == provider
    else model in cfg.builtins && cfg.builtins[model].provider == provider
  }

  /** The budget is the window's share that the margin leaves, in whole tokens. */
  lemma BudgetIsShare(cfg: Config, spec: Spec)
    requires 0.0 <= cfg.margin <= 1.0
    ensures var left := spec.window as real - spec.window as real * cfg.margin;
            cfg.Budget(spec) >= 0 && cfg.Budget(spec) as real <= left < cfg.Budget(spec) as real + 1.0
  {
    var window := spec.window as real;
    assert window * (1.0 - cfg.margin) == window - window * cfg.margin;
    assert window * (1.0 - cfg.margin) >= 0.0;
  }

  /** No tier is asked for more than its own model is held to. */
  lemma CapsHold(
    cfg: Config, rungs: seq<Rung>, tried: seq<Attempt>, prompt: string, override: Option<nat>,
    result: Result<string, Failure>, k: nat)
    requires Descends(cfg, rungs, tried, prompt, override, result) && k < |tried|
    ensures cfg.SpecOf(tried[k].rung.model).Some? ==>
              && tried[k].cap.Some?
              && tried[k].cap.value <= cfg.SpecOf(tried[k].rung.model).value.maxOutput
              && (override.Some? ==> tried[k].cap.value <= override.value)
              && (tried[k].cap.value == cfg.SpecOf(tried[k].rung.model).value.maxOutput || tried[k].cap == override)
    ensures cfg.SpecOf(tried[k].rung.model).None? ==> tried[k].cap == override
  {
    assert tried[k].cap == cfg.OutputCap(override, rungs[k].model);
  }

  predicate OverBudget(cfg: Config, prompt: string, model: string) {
    cfg.SpecOf(model).Some? && CountTokens(prompt) > cfg.Budget(cfg.SpecOf(model).value)
  }

  predicate Given(context: Option<string>) {
    context.Some? && context.value != ""
  }

  function TargetFor(cfg: Config, prompt: string, context: string, model: string): nat
    requires cfg.SpecOf(model).Some?
  {
    Target(cfg.Budget(cfg.SpecOf(model).value), Overhead(prompt, context))
  }

  /** What condensing leaves the caller with: the condensed context, cut to its target, in the place of the context. */
  function Spliced(
    cfg: Config, prompt: string, context: string, target: nat, reply: Result<string, Failure>): Result<string, Failure>
  {
    match reply
    case Err(why) => Err(why)
    case Ok(body) =>
      match cfg.summaryIn(body)
      case None => Err(Malformed)
      case Some(summary) => Ok(Replace(prompt, context, TruncateTokens(summary, target)))
  }

  /** The condensing prompt would itself be over the budget of the model that stands in to answer it. */
  predicate TooLongToCondense(cfg: Config, context: string, target: nat, model: string) {
    cfg.Substitutes(model) && OverBudget(cfg, cfg.condense(context, target), cfg.LocalFor(model))
  }

  /** A prompt within the budget, or for an unmapped model, goes through untouched and unasked; one over it with
      nothing to condense is refused, and so is one whose condensing prompt a stand-in could not read; any other has its
      context condensed by one walk of the ladder, asking for no more than the target, and spliced. */
  ghost predicate Fits(
    cfg: Config, prompt: string, context: Option<string>, model: string, condensing: seq<Attempt>,
    result: Result<string, Failure>)
  {
    if !OverBudget(cfg, prompt, model) then condensing == [] && result == Ok(prompt)
    else if !Given(context) then condensing == [] && result == Err(NoContext)
    else
      var target := TargetFor(cfg, prompt, context.value, model);
      if TooLongToCondense(cfg, context.value, target, model) then condensing == [] && result == Err(NoContext)
      else
        && condensing != []
        && var reply := condensing[|condensing| - 1].result;
        && Descends(cfg, cfg.Rungs(model), condensing, cfg.condense(context.value, target), Some(target), reply)
        && result == Spliced(cfg, prompt, context.value, target, reply)
  }

  /** When a prompt is touched at all, and what becomes of one that is. */
  lemma TouchedOnlyOver(
    cfg: Config, prompt: string, context: Option<string>, model: string, condensing: seq<Attempt>,
    result: Result<string, Failure>)
    requires Fits(cfg, prompt, context, model, condensing, result)
    ensures cfg.SpecOf(model).None? || CountTokens(prompt) <= cfg.Budget(cfg.SpecOf(model).value) ==>
              condensing == [] && result == Ok(prompt)
    ensures cfg.SpecOf(model).Some? && CountTokens(prompt) > cfg.Budget(cfg.SpecOf(model).value) ==>
              && (context.None? || context == Some("") ==> condensing == [] && result == Err(NoContext))
              && (condensing == [] ==> result == Err(NoContext))
              && (condensing != [] ==>
                    var reply := condensing[|condensing| - 1].result;
                    && (reply.Err? ==> result == reply)
                    && (reply.Ok? && cfg.summaryIn(reply.value).None? ==> result == Err(Malformed)))
  {
  }

  /** A compression keeps the instructions around the context, in their order and their places: what comes out is what
      stood before the context, the summary cut to the room they leave, and what stood after it. */
  lemma InstructionsSurvive(
    cfg: Config, before: string, context: string, after: string, model: string, condensing: seq<Attempt>,
    fitted: string)
    requires var prompt := before + context + after;
             && Fits(cfg, prompt, Some(context), model, condensing, Ok(fitted))
             && forall j, k :: 0 <= j < |before| && k == j + |context| <= |prompt| ==> prompt[j..k] != context
    ensures condensing == [] ==> fitted == before + context + after
    ensures condensing != [] ==>
              && cfg.SpecOf(model).Some? && condensing[|condensing| - 1].result.Ok?
              && cfg.summaryIn(condensing[|condensing| - 1].result.value).Some?
              && var left := cfg.Budget(cfg.SpecOf(model).value)
                             - (CountTokens(before + context + after) - CountTokens(context));
              && var summary := cfg.summaryIn(condensing[|condensing| - 1].result.value).value;
              && fitted == before + TruncateTokens(summary, if left > 128 then left else 128) + after
  {
    if condensing != [] {
      var prompt := before + context + after;
      var summary := cfg.summaryIn(condensing[|condensing| - 1].result.value).value;
      SplicedWhereItSat(before, context, after, TruncateTokens(summary, TargetFor(cfg, prompt, context, model)));
    }
  }

  /** The fitted prompt is within the budget, give or take the one token two ceilings can lose; when the instructions
      leave the context too little room it is within the overhead and the floor instead. */
  lemma FittedWithin(
    cfg: Config, prompt: string, context: string, model: string, condensing: seq<Attempt>, fitted: string)
    requires Fits(cfg, prompt, Some(context), model, condensing, Ok(fitted))
    requires cfg.SpecOf(model).Some? && Find(prompt, context).Some? && context != ""
    ensures var budget, overhead := cfg.Budget(cfg.SpecOf(model).value), Overhead(prompt, context);
            CountTokens(fitted) <= (if overhead + MIN_CONTEXT_TOKENS <= budget then budget else
                                    if OverBudget(cfg, prompt, model)
                                    then overhead + MIN_CONTEXT_TOKENS else budget) + 1
  {
    if OverBudget(cfg, prompt, model) {
      var summary := cfg.summaryIn(condensing[|condensing| - 1].result.value).value;
      FittedBound(prompt, context, summary, cfg.Budget(cfg.SpecOf(model).value));
    }
  }

  /** The prompt a local-only box re-fits is the one the first fitting left.  When that no longer holds the context,
      the re-fit pays for a summary and then sends the prompt as it was. */
  lemma RefitDoesNothing(
    cfg: Config, fitted: string, context: Option<string>, local: string, condensing: seq<Attempt>, sent: string)
    requires Fits(cfg, fitted, context, local, condensing, Ok(sent))
    requires context.Some? && forall i: nat :: !OccursAt(fitted, context.value, i)
    ensures sent == fitted
    ensures OverBudget(cfg, fitted, local) ==> condensing != []
  {
  }

  /** Any words but none may come back as a summary. */
  ghost predicate AnySummary(cfg: Config) {
    forall summary: string :: summary != "" ==> Returns(cfg, summary)
  }

  ghost predicate Returns(cfg: Config, summary: string) {
    exists body :: body != "" && cfg.summaryIn(body) == Some(summary)
  }

  /** One walk that the top rung answers at once. */
  function Answered(cfg: Config, rung: Rung, prompt: string, target: nat, body: string): seq<Attempt> {
    [Attempt(rung, prompt, cfg.OutputCap(Some(target), rung.model), Ok(body))]
  }

  lemma SummaryComesBack(cfg: Config, fitted: string, context: string, model: string, summary: string)
      returns (condensing: seq<Attempt>)
    requires OverBudget(cfg, fitted, model) && context != "" && Returns(cfg, summary)
    requires !TooLongToCondense(cfg, context, TargetFor(cfg, fitted, context, model), model)
    ensures Fits(cfg, fitted, Some(context), model, condensing,
                 Ok(Replace(fitted, context, TruncateTokens(summary, TargetFor(cfg, fitted, context, model)))))
  {
    var target := TargetFor(cfg, fitted, context, model);
    var body :| body != "" && cfg.summaryIn(body) == Some(summary);
    condensing := Answered(cfg, cfg.Rungs(model)[0], cfg.condense(context, target), target, body);
  }

  /** Over its own model's budget, a re-fit leaves the prompt as it is, whatever its summary, if and only if the
      prompt no longer holds the context. */
  lemma RefitDoesNothingExactly(cfg: Config, fitted: string, context: string, local: string)
    requires OverBudget(cfg, fitted, local) && context != "" && AnySummary(cfg)
    requires !TooLongToCondense(cfg, context, TargetFor(cfg, fitted, context, local), local)
    ensures (forall condensing, sent :: Fits(cfg, fitted, Some(context), local, condensing, Ok(sent)) ==>
              sent == fitted)
            <==> Find(fitted, context).None?
  {
    if Find(fitted, context).Some? {
      var target := TargetFor(cfg, fitted, context, local);
      var reply := OfAnotherLength(context);
      assert Returns(cfg, reply);
      var condensing := SummaryComesBack(cfg, fitted, context, local, reply);
      assert TruncateTokens(reply, target) == reply;
      ReplaceLength(fitted, context, reply);
      var sent := Replace(fitted, context, TruncateTokens(reply, target));
      assert Fits(cfg, fitted, Some(context), local, condensing, Ok(sent)) && sent != fitted;
    }
  }

  /** A local-only box asked for a cloud model of twice its own window. */
  function NarrowBox(): Config {
    Config(true, 0.0, map["cloud" := Spec(Google, 200, 400), "box" := Spec(Ollama, 150, 400)], map[], map[], map[], "",
           "box", map[], "", map[], "", (notes, target) => notes, body => Some(body))
  }

  /** The witness: the first fitting puts a summary in the context's place and is within the cloud model's budget; the
      box pays for a second summary, cannot splice it, and sends a prompt over its own budget. */
  lemma SentOverTheBox()
    ensures var cfg := NarrowBox();
            var context := Repeated('x', 300);
            var prompt := context + Repeated('i', 540);
            var fitted := Repeated('s', 30) + Repeated('i', 540);
            exists fitting, refitting ::
              && Fits(cfg, prompt, Some(context), "cloud", fitting, Ok(fitted)) && fitting != []
              && cfg.Substitutes("cloud") && cfg.LocalFor("cloud") == "box"
              && Fits(cfg, fitted, Some(context), "box", refitting, Ok(fitted)) && refitting != []
              && OverBudget(cfg, fitted, "box")
  {
    var cfg, context, summary := NarrowBox(), Repeated('x', 300), Repeated('s', 30);
    var rest := Repeated('i', 540);
    var prompt, fitted := context + rest, summary + rest;
    assert cfg.SpecOf("cloud") == Some(Spec(Google, 200, 400)) && cfg.SpecOf("box") == Some(Spec(Ollama, 150, 400));
    assert cfg.Budget(cfg.SpecOf("cloud").value) == 200 && cfg.Budget(cfg.SpecOf("box").value) == 150;
    assert prompt[0..300] == context;
    FindsFirst(prompt, context, 0);
    assert prompt[..0] + summary + prompt[300..] == fitted;
    assert cfg.summaryIn(summary) == Some(summary) && Returns(cfg, summary);
    assert TruncateTokens(summary, TargetFor(cfg, prompt, context, "cloud")) == summary;
    var fitting := SummaryComesBack(cfg, prompt, context, "cloud", summary);
    forall i: nat
      ensures !OccursAt(fitted, context, i)
    {
      NotAmong(fitted, context, i);
    }
    var refitting := SummaryComesBack(cfg, fitted, context, "box", summary);
    NothingToSplice(fitted, context, TruncateTokens(summary, TargetFor(cfg, fitted, context, "box")));
  }

  lemma NotAmong(text: string, part: string, i: nat)
    requires part != "" && forall k :: 0 <= k < |text| ==> text[k] != part[0]
    ensures !OccursAt(text, part, i)
  {
    assert i + |part| <= |text| ==> text[i..i + |part|][0] == text[i];
  }

  /** Every window from the one fitted to downward is at least as wide: the catalog's promise to the ladder. */
  ghost predicate NeverNarrows(cfg: Config, model: string) {
    forall k :: 0 <= k < |cfg.Rungs(model)| ==>
      && cfg.SpecOf(model).Some? && cfg.SpecOf(cfg.Rungs(model)[k].model).Some?
      && cfg.SpecOf(model).value.window <= cfg.SpecOf(cfg.Rungs(model)[k].model).value.window
  }

  /** Where the ladder never narrows, a prompt that needed no condensing for the model asked for needs none at
      whichever rung inherits it. */
  lemma OneFittingServes(cfg: Config, model: string, prompt: string, k: nat)
    requires 0.0 <= cfg.margin <= 1.0
    requires NeverNarrows(cfg, model) && k < |cfg.Rungs(model)|
    requires !OverBudget(cfg, prompt, model)
    ensures !OverBudget(cfg, prompt, cfg.Rungs(model)[k].model)
  {
    var rung := cfg.Rungs(model)[k];
    assert cfg.SpecOf(model).Some? && cfg.SpecOf(rung.model).Some?;
    WiderBudget(cfg, cfg.SpecOf(model).value, cfg.SpecOf(rung.model).value);
  }

  /** A condensed prompt is inherited by a rung with room of its own; it is within that room, whatever the summary, if
      and only if target, overhead and the token two ceilings may lose are. */
  lemma CondensedServesExactly(cfg: Config, model: string, prompt: string, context: string, rung: string)
    requires OverBudget(cfg, prompt, model) && context != "" && Find(prompt, context).Some?
    requires cfg.SpecOf(rung).Some?
    ensures var target := TargetFor(cfg, prompt, context, model);
            (forall summary :: !OverBudget(cfg, Replace(prompt, context, TruncateTokens(summary, target)), rung))
            <==> target + Overhead(prompt, context) + (if Overshoots(|prompt|, |context|) then 1 else 0)
                 <= cfg.Budget(cfg.SpecOf(rung).value)
  {
    var target, room := TargetFor(cfg, prompt, context, model), cfg.Budget(cfg.SpecOf(rung).value);
    WithinRoomExactly(prompt, context, target, room);
    assert forall summary :: !OverBudget(cfg, Replace(prompt, context, TruncateTokens(summary, target)), rung)
                             <==> CountTokens(Replace(prompt, context, TruncateTokens(summary, target))) <= room;
  }

  /** So down a ladder that never narrows, a prompt whose context was given its room unfloored is at most one token over
      any rung that inherits it, and over it only where that rung is no wider than the model asked for. */
  lemma CondensedServes(
    cfg: Config, model: string, prompt: string, context: string, condensing: seq<Attempt>, fitted: string, k: nat)
    requires 0.0 <= cfg.margin <= 1.0
    requires NeverNarrows(cfg, model) && k < |cfg.Rungs(model)|
    requires OverBudget(cfg, prompt, model) && context != "" && Find(prompt, context).Some?
    requires cfg.Budget(cfg.SpecOf(model).value) - Overhead(prompt, context) >= MIN_CONTEXT_TOKENS
    requires Fits(cfg, prompt, Some(context), model, condensing, Ok(fitted))
    ensures var rung := cfg.Rungs(model)[k].model;
            && cfg.SpecOf(rung).Some?
            && CountTokens(fitted) <= cfg.Budget(cfg.SpecOf(rung).value) + 1
            && (OverBudget(cfg, fitted, rung) ==>
                  && Overshoots(|prompt|, |context|)
                  && cfg.Budget(cfg.SpecOf(rung).value) == cfg.Budget(cfg.SpecOf(model).value))
  {
    var rung := cfg.Rungs(model)[k];
    assert cfg.SpecOf(model).Some? && cfg.SpecOf(rung.model).Some?;
    WiderBudget(cfg, cfg.SpecOf(model).value, cfg.SpecOf(rung.model).value);
    var summary := cfg.summaryIn(condensing[|condensing| - 1].result.value).value;
    var budget, target := cfg.Budget(cfg.SpecOf(model).value), TargetFor(cfg, prompt, context, model);
    WithinRoomExactly(prompt, context, target, budget);
    FittedBound(prompt, context, summary, budget);
    assert fitted == Replace(prompt, context, TruncateTokens(summary, target));
  }

  lemma WiderBudget(cfg: Config, a: Spec, b: Spec)
    requires 0.0 <= cfg.margin <= 1.0 && a.window <= b.window
    ensures cfg.Budget(a) <= cfg.Budget(b)
  {
    TruncatedGrows(a.window as real, b.window as real, 1.0 - cfg.margin);
  }

  lemma TruncatedGrows(a: real, b: real, share: real)
    requires 0.0 <= a <= b && share >= 0.0
    ensures Truncated(a, share) <= Truncated(b, share)
  {
    assert (b - a) * share >= 0.0 && a * share >= 0.0;
    assert b * share == a * share + (b - a) * share;
  }

  // ----- the boundary itself, one per thread

  /** What a provider's answer comes to: words are handed back, no words are an error, and an outage is one except at
      the last resort. */
  ghost predicate Heard(attempt: Attempt, outcome: Outcome) {
    match outcome
    case Answer(body) => attempt.result == if body == "" then Err(Empty) else Ok(body)
    case Down => attempt.result == Err(if attempt.rung.provider == Ollama then Rejected else Outage)
    case Refusal => attempt.result == Err(Rejected)
  }

  /** From the `since`-th on, every request met its own answer. */
  ghost predicate AllHeard(attempts: seq<Attempt>, answers: nat -> Outcome, since: nat) {
    forall k :: since <= k < |attempts| ==> Heard(attempts[k], answers(k))
  }

  class Boundary {
    const cfg: Config
    const answers: nat -> Outcome  // what the n-th request of this thread meets
    var served: Option<Served>
    var ledger: seq<LedgerRow>
    var attempts: seq<Attempt>

    constructor (cfg: Config, answers: nat -> Outcome)
      ensures this.cfg == cfg && served == None && ledger == [] && attempts == []
    {
      this.cfg, this.answers := cfg, answers;
      served, ledger, attempts := None, [], [];
    }

    /** One request to one provider.  An empty body is an error of its own, and the last resort never reports an
        outage. */
    method Tier(rung: Rung, prompt: string, override: Option<nat>) returns (r: Result<string, Failure>)
      modifies this`attempts, this`served
      ensures attempts == old(attempts) + [Attempt(rung, prompt, cfg.OutputCap(override, rung.model), r)]
      ensures r.Ok? ==> r.value != "" && served == Some(Served(rung, |r.value|))
      ensures r.Err? ==> served == old(served)
      ensures rung.provider == Ollama ==> r != Err(Outage)
      ensures r == Err(Outage) <==> answers(old(|attempts|)) == Down && rung.provider != Ollama
      ensures AllHeard(attempts, answers, old(|attempts|))
    {
      match answers(|attempts|) {
        case Answer(body) =>
          if body == "" {
            r := Err(Empty);
          } else {
            served := Some(Served(rung, |body|));
            r := Ok(body);
          }
        case Down =>
          r := Err(if rung.provider == Ollama then Rejected else Outage);
        case Refusal =>
          r := Err(Rejected);
      }
      attempts := attempts + [Attempt(rung, prompt, cfg.OutputCap(override, rung.model), r)];
    }

    /** A bare call, with nothing beneath it. */
    method Alone(rung: Rung, prompt: string, override: Option<nat>)
        returns (r: Result<string, Failure>, ghost tried: seq<Attempt>)
      modifies this`attempts, this`served
      ensures attempts == old(attempts) + tried
      ensures AllHeard(attempts, answers, old(|attempts|))
      ensures Descends(cfg, [rung], tried, prompt, override, r)
      ensures r.Ok? ==> served == Some(Served(tried[|tried| - 1].rung, |r.value|))
    {
      r := Tier(rung, prompt, override);
      tried := [Attempt(rung, prompt, cfg.OutputCap(override, rung.model), r)];
    }

    /** A Scaleway rung, its Mistral catch, and the local floor. */
    method FromScaleway(scaleway: string, prompt: string, override: Option<nat>)
        returns (r: Result<string, Failure>, ghost tried: seq<Attempt>)
      modifies this`attempts, this`served
      ensures attempts == old(attempts) + tried
      ensures AllHeard(attempts, answers, old(|attempts|))
      ensures Descends(cfg, cfg.Beneath(scaleway), tried, prompt, override, r)
      ensures r.Ok? ==> served == Some(Served(tried[|tried| - 1].rung, |r.value|))
      ensures r != Err(Outage)
    {
      r := Tier(Rung(Scaleway, scaleway), prompt, override);
      tried := attempts[old(|attempts|)..];
      if r != Err(Outage) {
        return;
      }
      r := Tier(Rung(Mistral, cfg.MistralFor(scaleway)), prompt, override);
      tried := attempts[old(|attempts|)..];
      if r != Err(Outage) {
        return;
      }
      r := Tier(Rung(Ollama, cfg.localFloor), prompt, override);
      tried := attempts[old(|attempts|)..];
    }

    /** The full ladder: a Google rung, and beneath it its Scaleway catch and all that catches that. */
    method FromGoogle(model: string, prompt: string, override: Option<nat>)
        returns (r: Result<string, Failure>, ghost tried: seq<Attempt>)
      modifies this`attempts, this`served
      ensures attempts == old(attempts) + tried
      ensures AllHeard(attempts, answers, old(|attempts|))
      ensures Descends(cfg, [Rung(Google, model)] + cfg.Beneath(cfg.ScalewayFor(model)), tried, prompt, override, r)
      ensures r.Ok? ==> served == Some(Served(tried[|tried| - 1].rung, |r.value|))
    {
      r := Tier(Rung(Google, model), prompt, override);
      ghost var top := Attempt(Rung(Google, model), prompt, cfg.OutputCap(override, model), r);
      tried := [top];
      if r == Err(Outage) {
        ghost var below;
        r, below := FromScaleway(cfg.ScalewayFor(model), prompt, override);
        tried := [top] + below;
        OneMoreRung(cfg, top, cfg.Beneath(cfg.ScalewayFor(model)), below, prompt, override, r);
      }
    }

    method Walk(model: string, prompt: string, override: Option<nat>)
        returns (r: Result<string, Failure>, ghost tried: seq<Attempt>)
      requires !cfg.isLocal
      modifies this`attempts, this`served
      ensures attempts == old(attempts) + tried
      ensures AllHeard(attempts, answers, old(|attempts|))
      ensures Descends(cfg, cfg.Rungs(model), tried, prompt, override, r)
      ensures r.Ok? ==> served == Some(Served(tried[|tried| - 1].rung, |r.value|))
    {
      match cfg.ProviderOf(model) {
        case Google =>
          r, tried := FromGoogle(model, prompt, override);
        case Scaleway =>
          r, tried := FromScaleway(model, prompt, override);
        case Mistral =>
          r, tried := Alone(Rung(Mistral, model), prompt, override);
        case Ollama =>
          r, tried := Alone(Rung(Ollama, model), prompt, override);
      }
    }

    /** Run one call down the ladder, or on the box.  Only the box re-fits, and only for a model it stands in for. */
    method Call(model: string, prompt: string, context: Option<string>, override: Option<nat>)
        returns (r: Result<string, Failure>, ghost condensing: seq<Attempt>, ghost sent: string,
            ghost tried: seq<Attempt>)
      modifies this`attempts, this`served
      ensures attempts == old(attempts) + condensing + tried
      ensures AllHeard(attempts, answers, old(|attempts|))
      ensures !cfg.Substitutes(model) ==> condensing == [] && sent == prompt && tried != []
      ensures cfg.Substitutes(model) && tried != [] ==>
                Fits(cfg, prompt, context, cfg.LocalFor(model), condensing, Ok(sent))
      ensures tried == [] ==>
                && cfg.Substitutes(model) && r.Err?
                && Fits(cfg, prompt, context, cfg.LocalFor(model), condensing, r)
      ensures tried != [] ==> Descends(cfg, cfg.Rungs(model), tried, sent, override, r)
      ensures r.Ok? ==> served == Some(Served(tried[|tried| - 1].rung, |r.value|))
      decreases if cfg.Substitutes(model) then 1 else 0, 0
    {
      condensing, sent, tried := [], prompt, [];
      if cfg.isLocal {
        var local := cfg.LocalFor(model);
        var fitted := prompt;
        if local != model {
          SubstitutesOnce(cfg, model);
          var fit;
          fit, condensing := Fit(prompt, context, local);
          if fit.Err? {
            return Err(fit.error), condensing, sent, [];
          }
          fitted := fit.value;
        }
        sent := fitted;
        r, tried := Alone(Rung(Ollama, local), fitted, override);
      } else {
        r, tried := Walk(model, prompt, override);
      }
    }

    /** Hold a prompt to the model's budget, condensing its context in place when it overruns. */
    method Fit(prompt: string, context: Option<string>, model: string)
        returns (r: Result<string, Failure>, ghost condensing: seq<Attempt>)
      modifies this`attempts, this`served
      ensures attempts == old(attempts) + condensing
      ensures AllHeard(attempts, answers, old(|attempts|))
      ensures Fits(cfg, prompt, context, model, condensing, r)
      decreases if cfg.Substitutes(model) then 1 else 0, 2
    {
      condensing := [];
      var spec := cfg.SpecOf(model);
      if spec.None? {
        return Ok(prompt), [];
      }
      var budget := cfg.Budget(spec.value);
      if CountTokens(prompt) <= budget {
        return Ok(prompt), [];
      }
      if context.None? || context.value == "" {
        return Err(NoContext), [];
      }
      var target := Target(budget, Overhead(prompt, context.value));
      var summary;
      summary, condensing := Summarise(context.value, target, model);
      if summary.Err? {
        return Err(summary.error), condensing;
      }
      r := Ok(Replace(prompt, context.value, summary.value));
    }

    /** Condense a context and cut what comes back to the target.  Nothing here can fit again: the condensing
        call names no context of its own. */
    method Summarise(context: string, target: nat, model: string)
        returns (r: Result<string, Failure>, ghost condensing: seq<Attempt>)
      modifies this`attempts, this`served
      ensures attempts == old(attempts) + condensing
      ensures AllHeard(attempts, answers, old(|attempts|))
      ensures condensing == [] <==> TooLongToCondense(cfg, context, target, model)
      ensures condensing == [] ==> r == Err(NoContext)
      ensures condensing != [] ==>
                var reply := condensing[|condensing| - 1].result;
                && Descends(cfg, cfg.Rungs(model), condensing, cfg.condense(context, target), Some(target), reply)
                && match reply
                   case Err(why) => r == Err(why)
                   case Ok(body) =>
                     match cfg.summaryIn(body)
                     case None => r == Err(Malformed)
                     case Some(summary) => r == Ok(TruncateTokens(summary, target))
      decreases if cfg.Substitutes(model) then 1 else 0, 1
    {
      ghost var refit, asked;
      var got;
      got, refit, asked, condensing := Call(model, cfg.condense(context, target), None, Some(target));
      if got.Err? {
        return got, condensing;
      }
      match cfg.summaryIn(got.value) {
        case None =>
          r := Err(Malformed);
        case Some(summary) =>
          r := Ok(TruncateTokens(summary, target));
      }
    }

    /** File the call under its role, naming the rung this thread heard from last. */
    method RecordCall(role: Option<string>, requested: string)
      modifies this`ledger
      ensures ledger == old(ledger)
                + (if role.Some? && served.Some? then [LedgerRow(role.value, requested, served.value)] else [])
    {
      if role.None? || served.None? {
        return;
      }
      ledger := ledger + [LedgerRow(role.value, requested, served.value)];
    }

    function ModelName(model: Option<string>, role: Option<string>): string {
      if model.Some? && model.value != "" then model.value
      else cfg.RoleName(if role.Some? && role.value != "" then role.value else "rerank")
    }

    /** Fit a prompt to the model asked for, then run it. */
    method FitAndCall(name: string, prompt: string, context: Option<string>)
        returns (r: Result<string, Failure>, ghost fitting: seq<Attempt>, ghost fitted: string,
                 ghost refitting: seq<Attempt>, ghost sent: string, ghost tried: seq<Attempt>)
      modifies this`attempts, this`served
      ensures attempts == old(attempts) + fitting + refitting + tried
      ensures AllHeard(attempts, answers, old(|attempts|))
      ensures tried != [] ==>
                && Fits(cfg, prompt, context, name, fitting, Ok(fitted))
                && (if cfg.Substitutes(name) then Fits(cfg, fitted, context, cfg.LocalFor(name), refitting, Ok(sent))
                    else refitting == [] && sent == fitted)
                && Descends(cfg, cfg.Rungs(name), tried, sent, None, r)
      ensures tried == [] ==> r.Err?
      ensures r.Ok? ==> served == Some(Served(tried[|tried| - 1].rung, |r.value|))
    {
      fitted, refitting, sent, tried := prompt, [], prompt, [];
      var fit;
      fit, fitting := Fit(prompt, context, name);
      if fit.Err? {
        return Err(fit.error), fitting, fitted, refitting, sent, tried;
      }
      fitted := fit.value;
      r, refitting, sent, tried := Call(name, fit.value, context, None);
    }

    /** One validated call.  However many requests condensing took, the reply is the last rung's, the ledger names that
        rung and no other, and it is written whether or not the reply then validates. */
    method GenerateJson(
      prompt: string, valid: string -> bool, model: Option<string>, context: Option<string>, role: Option<string>)
        returns (r: Result<string, Failure>, ghost fitting: seq<Attempt>, ghost fitted: string,
                 ghost refitting: seq<Attempt>, ghost sent: string, ghost tried: seq<Attempt>)
      modifies this
      ensures attempts == old(attempts) + fitting + refitting + tried
      ensures AllHeard(attempts, answers, old(|attempts|))
      ensures tried != [] ==>
                && Fits(cfg, prompt, context, ModelName(model, role), fitting, Ok(fitted))
                && (if cfg.Substitutes(ModelName(model, role))
                    then Fits(cfg, fitted, context, cfg.LocalFor(ModelName(model, role)), refitting, Ok(sent))
                    else refitting == [] && sent == fitted)
                && Descends(cfg, cfg.Rungs(ModelName(model, role)), tried, sent, None, tried[|tried| - 1].result)
      ensures r.Ok? ==> tried != [] && tried[|tried| - 1].result == r && valid(r.value)
      ensures var heard := tried != [] && tried[|tried| - 1].result.Ok?;
              && (heard ==> r == if valid(tried[|tried| - 1].result.value) then tried[|tried| - 1].result
                                else Err(Malformed))
              && ledger == old(ledger)
                   + (if heard && role.Some?
                      then [LedgerRow(role.value, ModelName(model, role),
                                      Served(tried[|tried| - 1].rung, |tried[|tried| - 1].result.value|))]
                      else [])
    {
      var name := ModelName(model, role);
      served := None;
      var reply;
      reply, fitting, fitted, refitting, sent, tried := FitAndCall(name, prompt, context);
      if reply.Err? {
        return Err(reply.error), fitting, fitted, refitting, sent, tried;
      }
      RecordCall(role, name);
      r := if valid(reply.value) then reply else Err(Malformed);
    }
  }

  /** A model asked for by name is the one a call is for; failing that its role's, and failing that the rerank
      role's. */
  lemma NameAsked(b: Boundary, name: string, role: string)
    ensures name != "" ==> b.ModelName(Some(name), Some(role)) == b.ModelName(Some(name), None) == name
    ensures role != "" ==> b.ModelName(None, Some(role)) == b.ModelName(Some(""), Some(role)) == b.cfg.RoleName(role)
    ensures b.ModelName(None, None) == b.ModelName(None, Some("")) == b.cfg.RoleName("rerank")
  {
  }

  lemma OneMoreRung(
    cfg: Config, top: Attempt, rungs: seq<Rung>, below: seq<Attempt>, prompt: string, override: Option<nat>,
    r: Result<string, Failure>)
    requires Descends(cfg, rungs, below, prompt, override, r)
    requires top.prompt == prompt && top.cap == cfg.OutputCap(override, top.rung.model) && top.result == Err(Outage)
    ensures Descends(cfg, [top.rung] + rungs, [top] + below, prompt, override, r)
  {
    var tried := [top] + below;
    forall k | 0 <= k < |tried|
      ensures tried[k].rung == ([top.rung] + rungs)[k]
      ensures tried[k].prompt == prompt && tried[k].cap == cfg.OutputCap(override, tried[k].rung.model)
      ensures k < |tried| - 1 ==> tried[k].result == Err(Outage)
    {
      if k > 0 {
        assert below[k - 1].rung == rungs[k - 1];
      }
    }
  }
}
