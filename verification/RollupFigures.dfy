/**
  What the figures of a stored bucket count, read off the facts alone: calls by the text of their
  category, questions by the text of their status, sums and tallies by field.
*/
module RollupFigures {
  import opened Rollup

  /** The bucket starts on the hour or at midnight, and the moment falls within it. */
  predicate Hit(at: int, g: Granularity, key: int) {
    match g
    case Hour => key % 3600 == 0 && key <= at < key + 3600
    case Day => key % 86400 == 0 && key <= at < key + 86400
  }

  function Count(facts: seq<Fact>, p: Fact -> bool): nat {
    if facts == [] then 0
    else Count(facts[..|facts| - 1], p) + (if p(facts[|facts| - 1]) then 1 else 0)
  }

  function Added(facts: seq<Fact>, weigh: Fact -> int): int {
    if facts == [] then 0 else Added(facts[..|facts| - 1], weigh) + weigh(facts[|facts| - 1])
  }

  lemma FloorHour(at: int, key: int)
    ensures at / 3600 * 3600 == key <==> key % 3600 == 0 && key <= at < key + 3600
  {
    assert at == at / 3600 * 3600 + at % 3600;
    if key % 3600 == 0 && key <= at < key + 3600 {
      assert key == key / 3600 * 3600;
      assert at / 3600 == key / 3600;
    }
  }

  lemma FloorDay(at: int, key: int)
    ensures at / 86400 * 86400 == key <==> key % 86400 == 0 && key <= at < key + 86400
  {
    assert at == at / 86400 * 86400 + at % 86400;
    if key % 86400 == 0 && key <= at < key + 86400 {
      assert key == key / 86400 * 86400;
      assert at / 86400 == key / 86400;
    }
  }

  lemma HitIsIn(f: Fact, g: Granularity, key: int)
    ensures Hit(f.at, g, key) <==> In(f, g, key)
  {
    match g
    case Hour => FloorHour(f.at, key);
    case Day => FloorDay(f.at, key);
  }

  // ---------------------------------------------------------------- which facts a figure counts

  predicate Called(f: Fact, g: Granularity, key: int) { f.MesCall? && Hit(f.at, g, key) }

  /** A call of an operation listed under the category. */
  predicate CalledAs(f: Fact, categories: Categories, g: Granularity, key: int, category: string) {
    Called(f, g, key) && f.operation in categories && categories[f.operation] == category
  }

  predicate Unlisted(f: Fact, categories: Categories, g: Granularity, key: int) {
    Called(f, g, key) && f.operation !in categories
  }

  predicate CallEnds(f: Fact, g: Granularity, key: int, completed: bool) {
    Called(f, g, key) && (f.status == "completed" <==> completed)
  }

  predicate Asked(f: Fact, g: Granularity, key: int) { f.Chat? && Hit(f.at, g, key) && f.event == Started }

  predicate AskedValidly(f: Fact, g: Granularity, key: int) {
    f.Chat? && Hit(f.at, g, key) && f.event == Routed && f.capable
  }

  predicate EndedAs(f: Fact, g: Granularity, key: int, status: string) {
    f.Chat? && Hit(f.at, g, key) && f.status == status
  }

  predicate Lasted(f: Fact, g: Granularity, key: int, stage: Field) {
    f.Chat? && Hit(f.at, g, key) && stage in f.durations
  }

  function Lasting(f: Fact, g: Granularity, key: int, stage: Field): int {
    if Lasted(f, g, key, stage) then f.durations[stage] else 0
  }

  predicate Attempted(f: Fact, g: Granularity, key: int) { f.LlmCall? && Hit(f.at, g, key) }

  function Spent(f: Fact, g: Granularity, key: int, tokens: Fact -> int): int {
    if Attempted(f, g, key) then tokens(f) else 0
  }

  function PromptOf(f: Fact): int { if f.LlmCall? then f.prompt else 0 }
  function CompletionOf(f: Fact): int { if f.LlmCall? then f.completion else 0 }
  function CachedOf(f: Fact): int { if f.LlmCall? then f.cached else 0 }
  function ReasoningOf(f: Fact): int { if f.LlmCall? then f.reasoning else 0 }

  // ---------------------------------------------------------------- totals are counts

  lemma {:induction false} TotalAdds(facts: seq<Fact>, categories: Categories, g: Granularity, key: int, m: Metric,
                                     weigh: Fact -> int)
    requires forall f: Fact :: weigh(f) == if In(f, g, key) then Share(f, categories, m) else 0
    ensures Total(facts, categories, g, key, m) == Added(facts, weigh)
  {
    if facts != [] {
      TotalAdds(facts[..|facts| - 1], categories, g, key, m, weigh);
    }
  }

  lemma {:induction false} TotalCounts(facts: seq<Fact>, categories: Categories, g: Granularity, key: int, m: Metric,
                                       p: Fact -> bool)
    requires forall f: Fact :: (if p(f) then 1 else 0) == if In(f, g, key) then Share(f, categories, m) else 0
    ensures Total(facts, categories, g, key, m) == Count(facts, p)
  {
    if facts != [] {
      TotalCounts(facts[..|facts| - 1], categories, g, key, m, p);
    }
  }

  lemma {:induction false} TotalCountsTwo(facts: seq<Fact>, categories: Categories, g: Granularity, key: int,
                                          m: Metric, p: Fact -> bool, q: Fact -> bool)
    requires forall f: Fact :: (if p(f) then 1 else 0) + (if q(f) then 1 else 0) ==
                               if In(f, g, key) then Share(f, categories, m) else 0
    ensures Total(facts, categories, g, key, m) == Count(facts, p) + Count(facts, q)
  {
    if facts != [] {
      TotalCountsTwo(facts[..|facts| - 1], categories, g, key, m, p, q);
    }
  }

  lemma HitIsAlwaysIn(g: Granularity, key: int)
    ensures forall f: Fact :: Hit(f.at, g, key) <==> In(f, g, key)
  {
    forall f: Fact
      ensures Hit(f.at, g, key) <==> In(f, g, key)
    {
      HitIsIn(f, g, key);
    }
  }

  lemma Billed(facts: seq<Fact>, categories: Categories, g: Granularity, key: int, category: string, kind: MesLabel)
    requires (category, kind) in {("output", Output), ("payroll", Payroll), ("order", Order)}
    ensures Total(facts, categories, g, key, Mes(kind)) ==
            Count(facts, f => CalledAs(f, categories, g, key, category))
  {
    HitIsAlwaysIn(g, key);
    TotalCounts(facts, categories, g, key, Mes(kind), f => CalledAs(f, categories, g, key, category));
  }

  lemma BilledElsewhere(facts: seq<Fact>, categories: Categories, g: Granularity, key: int)
    ensures Total(facts, categories, g, key, Mes(Other)) ==
            Count(facts, f => CalledAs(f, categories, g, key, "other")) +
              Count(facts, f => Unlisted(f, categories, g, key))
  {
    HitIsAlwaysIn(g, key);
    TotalCountsTwo(facts, categories, g, key, Mes(Other), f => CalledAs(f, categories, g, key, "other"),
                   f => Unlisted(f, categories, g, key));
  }

  /** Calls of a billing category are those of the operations listed under its very name; unlisted ones are `other`. */
  lemma CategoryFigures(b: Buckets, facts: seq<Fact>, categories: Categories, g: Granularity, key: int)
    requires Tabulates(b, facts, categories, g) && key in b
    ensures b[key](Mes(Output)) == Count(facts, f => CalledAs(f, categories, g, key, "output"))
    ensures b[key](Mes(Payroll)) == Count(facts, f => CalledAs(f, categories, g, key, "payroll"))
    ensures b[key](Mes(Order)) == Count(facts, f => CalledAs(f, categories, g, key, "order"))
    ensures b[key](Mes(Other)) ==
            Count(facts, f => CalledAs(f, categories, g, key, "other")) +
              Count(facts, f => Unlisted(f, categories, g, key))
  {
    Billed(facts, categories, g, key, "output", Output);
    Billed(facts, categories, g, key, "payroll", Payroll);
    Billed(facts, categories, g, key, "order", Order);
    BilledElsewhere(facts, categories, g, key);
  }

  /** Calls count once in all, once by how they ended, and once more if their category is named like an ending. */
  lemma CallFigures(b: Buckets, facts: seq<Fact>, categories: Categories, g: Granularity, key: int)
    requires Tabulates(b, facts, categories, g) && key in b
    ensures b[key](MesCalls) == Count(facts, f => Called(f, g, key))
    ensures b[key](Mes(MesCompleted)) ==
            Count(facts, f => CallEnds(f, g, key, true)) +
              Count(facts, f => CalledAs(f, categories, g, key, "completed"))
    ensures b[key](Mes(MesFailed)) ==
            Count(facts, f => CallEnds(f, g, key, false)) + Count(facts, f => CalledAs(f, categories, g, key, "failed"))
  {
    HitIsAlwaysIn(g, key);
    TotalCounts(facts, categories, g, key, MesCalls, f => Called(f, g, key));
    TotalCountsTwo(facts, categories, g, key, Mes(MesCompleted), f => CallEnds(f, g, key, true),
                   f => CalledAs(f, categories, g, key, "completed"));
    TotalCountsTwo(facts, categories, g, key, Mes(MesFailed), f => CallEnds(f, g, key, false),
                   f => CalledAs(f, categories, g, key, "failed"));
  }

  lemma Ended(facts: seq<Fact>, categories: Categories, g: Granularity, key: int, text: string, status: Status)
    requires (text, status) in
               {("completed", Completed), ("failed", Failed), ("cancelled", Cancelled), ("rejected", Rejected)}
    ensures Total(facts, categories, g, key, StatusOf(status)) == Count(facts, f => EndedAs(f, g, key, text))
  {
    HitIsAlwaysIn(g, key);
    TotalCounts(facts, categories, g, key, StatusOf(status), f => EndedAs(f, g, key, text));
  }

  /** Questions are the started facts, valid ones those routed with a capability; each status counts its own text. */
  lemma QuestionFigures(b: Buckets, facts: seq<Fact>, categories: Categories, g: Granularity, key: int)
    requires Tabulates(b, facts, categories, g) && key in b
    ensures b[key](Sum(Questions)) == Count(facts, f => Asked(f, g, key))
    ensures b[key](Sum(ValidQuestions)) == Count(facts, f => AskedValidly(f, g, key))
    ensures b[key](StatusOf(Completed)) == Count(facts, f => EndedAs(f, g, key, "completed"))
    ensures b[key](StatusOf(Failed)) == Count(facts, f => EndedAs(f, g, key, "failed"))
    ensures b[key](StatusOf(Cancelled)) == Count(facts, f => EndedAs(f, g, key, "cancelled"))
    ensures b[key](StatusOf(Rejected)) == Count(facts, f => EndedAs(f, g, key, "rejected"))
  {
    HitIsAlwaysIn(g, key);
    TotalCounts(facts, categories, g, key, Sum(Questions), f => Asked(f, g, key));
    TotalCounts(facts, categories, g, key, Sum(ValidQuestions), f => AskedValidly(f, g, key));
    Ended(facts, categories, g, key, "completed", Completed);
    Ended(facts, categories, g, key, "failed", Failed);
    Ended(facts, categories, g, key, "cancelled", Cancelled);
    Ended(facts, categories, g, key, "rejected", Rejected);
  }

  /** The durations of a stage are added over the facts that have one, and those facts are counted. */
  lemma DurationFigures(b: Buckets, facts: seq<Fact>, categories: Categories, g: Granularity, key: int, stage: Field)
    requires Tabulates(b, facts, categories, g) && key in b
    requires stage in {E2e, InMes, InLlm, Local}
    ensures b[key](Sum(stage)) == Added(facts, f => Lasting(f, g, key, stage))
    ensures b[key](Tally(stage)) == Count(facts, f => Lasted(f, g, key, stage))
  {
    HitIsAlwaysIn(g, key);
    TotalAdds(facts, categories, g, key, Sum(stage), f => Lasting(f, g, key, stage));
    TotalCounts(facts, categories, g, key, Tally(stage), f => Lasted(f, g, key, stage));
  }

  lemma TokensAdd(facts: seq<Fact>, categories: Categories, g: Granularity, key: int, field: Field,
                  tokens: Fact -> int)
    requires forall f: Fact | f.LlmCall? :: tokens(f) == LlmShare(f, Sum(field))
    requires field in {Prompt, Completion, Cached, Reasoning}
    ensures Total(facts, categories, g, key, Sum(field)) == Added(facts, f => Spent(f, g, key, tokens))
  {
    HitIsAlwaysIn(g, key);
    TotalAdds(facts, categories, g, key, Sum(field), f => Spent(f, g, key, tokens));
  }

  /** Every model call counts as an attempt, and its tokens go into the sums of their own kind. */
  lemma TokenFigures(b: Buckets, facts: seq<Fact>, categories: Categories, g: Granularity, key: int)
    requires Tabulates(b, facts, categories, g) && key in b
    ensures b[key](Sum(Attempts)) == Count(facts, f => Attempted(f, g, key))
    ensures b[key](Sum(Prompt)) == Added(facts, f => Spent(f, g, key, PromptOf))
    ensures b[key](Sum(Completion)) == Added(facts, f => Spent(f, g, key, CompletionOf))
    ensures b[key](Sum(Cached)) == Added(facts, f => Spent(f, g, key, CachedOf))
    ensures b[key](Sum(Reasoning)) == Added(facts, f => Spent(f, g, key, ReasoningOf))
  {
    HitIsAlwaysIn(g, key);
    TotalCounts(facts, categories, g, key, Sum(Attempts), f => Attempted(f, g, key));
    TokensAdd(facts, categories, g, key, Prompt, PromptOf);
    TokensAdd(facts, categories, g, key, Completion, CompletionOf);
    TokensAdd(facts, categories, g, key, Cached, CachedOf);
    TokensAdd(facts, categories, g, key, Reasoning, ReasoningOf);
  }

  /** Each kind of token is tallied once per model call; questions and attempts have no tally. */
  lemma TallyFigures(b: Buckets, facts: seq<Fact>, categories: Categories, g: Granularity, key: int, field: Field)
    requires Tabulates(b, facts, categories, g) && key in b
    ensures field in {Prompt, Completion, Cached, Reasoning} ==>
              b[key](Tally(field)) == Count(facts, f => Attempted(f, g, key))
    ensures field in {Questions, ValidQuestions, Attempts} ==> b[key](Tally(field)) == 0
  {
    HitIsAlwaysIn(g, key);
    if field in {Prompt, Completion, Cached, Reasoning} {
      TotalCounts(facts, categories, g, key, Tally(field), f => Attempted(f, g, key));
    } else if field in {Questions, ValidQuestions, Attempts} {
      TotalAdds(facts, categories, g, key, Tally(field), f => 0);
      AddedNothing(facts);
    }
  }

  lemma {:induction false} AddedNothing(facts: seq<Fact>)
    ensures Added(facts, f => 0) == 0
  {
    if facts != [] {
      AddedNothing(facts[..|facts| - 1]);
    }
  }

  /** Users and logical calls are the distinct names that are not empty. */
  lemma NameFigures(b: Buckets, facts: seq<Fact>, categories: Categories, g: Granularity, key: int)
    requires Tabulates(b, facts, categories, g) && key in b
    ensures b[key](Users) == |set f | f in facts && f.Chat? && Hit(f.at, g, key) && f.user != "" :: f.user|
    ensures b[key](LogicalCalls) == |set f | f in facts && f.LlmCall? && Hit(f.at, g, key) && f.call != "" :: f.call|
  {
    HitIsAlwaysIn(g, key);
    var users := set f | f in facts && f.Chat? && Hit(f.at, g, key) && f.user != "" :: f.user;
    var calls := set f | f in facts && f.LlmCall? && Hit(f.at, g, key) && f.call != "" :: f.call;
    forall n
      ensures n in Names(facts, g, key, UserOf) <==> n in users
      ensures n in Names(facts, g, key, CallOf) <==> n in calls
    {
      NamedIn(facts, g, key, UserOf, n);
      NamedIn(facts, g, key, CallOf, n);
    }
    assert Names(facts, g, key, UserOf) == users;
    assert Names(facts, g, key, CallOf) == calls;
  }

  lemma NamedIn(facts: seq<Fact>, g: Granularity, key: int, name: Fact -> string, n: string)
    ensures n in Names(facts, g, key, name) <==> n != "" && exists f :: f in facts && In(f, g, key) && name(f) == n
  {
    if n != "" && exists f :: f in facts && In(f, g, key) && name(f) == n {
      var f :| f in facts && In(f, g, key) && name(f) == n;
      var i :| 0 <= i < |facts| && facts[i] == f;
    }
  }

  /** A bucket exists for every call and for every question that says anything. */
  lemma BucketExists(b: Buckets, facts: seq<Fact>, categories: Categories, g: Granularity, key: int)
    requires Tabulates(b, facts, categories, g)
    ensures key in b <==>
            exists f :: f in facts && Hit(f.at, g, key) &&
                (f.Chat? ==>
                   f.event == Started || (f.event == Routed && f.capable) || f.status != "" ||
                   f.durations.Keys * {E2e, InMes, InLlm, Local} != {})
  {
    HitIsAlwaysIn(g, key);
    forall f: Fact | f.Chat?
      ensures AnyValue(Stages, f.durations) <==> f.durations.Keys * {E2e, InMes, InLlm, Local} != {}
    {
      SomeStage(f.durations);
    }
    forall f: Fact | f in facts
      ensures exists i :: 0 <= i < |facts| && facts[i] == f
    {
    }
  }

  lemma SomeStage(durations: map<Field, int>)
    ensures AnyValue(Stages, durations) <==> durations.Keys * {E2e, InMes, InLlm, Local} != {}
  {
    assert Stages[0] == E2e && Stages[1] == InMes && Stages[2] == InLlm && Stages[3] == Local;
    assert forall s :: s in Stages <==> s in {E2e, InMes, InLlm, Local};
    if s :| s in durations.Keys * {E2e, InMes, InLlm, Local} {
      assert s in Stages && s in durations;
    }
    if AnyValue(Stages, durations) {
      var s :| s in Stages && s in durations;
      assert s in durations.Keys * {E2e, InMes, InLlm, Local};
    }
  }

  const KnownLabels: set<string> := {"completed", "failed", "output", "payroll", "order", "other"}

  /** The rollup fails exactly on an operation listed under a name that is no metric. */
  lemma UnknownCategory(f: Fact, categories: Categories)
    ensures Classified(f, categories) <==>
            (f.MesCall? && f.operation in categories ==> categories[f.operation] in KnownLabels)
  {
  }
}
