/**
  Usage rollup of one tenant: facts are grouped into hour and day buckets, and the buckets of a
  window are written over the stored ones. Times are whole seconds.
*/
module Rollup {
  import opened Wrappers

  datatype Granularity = Hour | Day {
    function Width(): int { if Hour? then 3600 else 86400 }
  }

  datatype Field =
    | Questions | ValidQuestions | E2e | InMes | InLlm | Local | Attempts | Prompt | Completion | Cached | Reasoning

  datatype Status = Completed | Failed | Cancelled | Rejected

  datatype MesLabel = MesCompleted | MesFailed | Output | Payroll | Order | Other

  /** Every bucket carries every metric. `Tally` counts the facts that had a value for a field. */
  datatype Metric =
    | Sum(field: Field) | Tally(field: Field) | StatusOf(status: Status) | Users | LogicalCalls | MesCalls
    | Mes(kind: MesLabel)

  type Bucket = Metric -> int

  datatype Event = Started | Routed | OtherEvent

  datatype Fact =
    | Chat(at: int, event: Event, user: string, capable: bool, status: string, durations: map<Field, int>)
    | LlmCall(at: int, call: string, prompt: int, completion: int, cached: int, reasoning: int)
    | MesCall(at: int, operation: string, status: string)

  const Stages: seq<Field> := [E2e, InMes, InLlm, Local]

  type Categories = map<string, string>

  function BucketKey(at: int, g: Granularity): int { at / g.Width() * g.Width() }

  // ---------------------------------------------------------------- what one fact adds

  function StatusLabel(s: string): Option<Status> {
    match s
    case "completed" => Some(Completed)
    case "failed" => Some(Failed)
    case "cancelled" => Some(Cancelled)
    case "rejected" => Some(Rejected)
    case _ => None
  }

  /** The metric a category counts into. No such metric: the lookup in the bucket fails. */
  function LabelOf(category: string): Option<MesLabel> {
    match category
    case "completed" => Some(MesCompleted)
    case "failed" => Some(MesFailed)
    case "output" => Some(Output)
    case "payroll" => Some(Payroll)
    case "order" => Some(Order)
    case "other" => Some(Other)
    case _ => None
  }

  function CategoryOf(operation: string, categories: Categories): Option<MesLabel> {
    if operation in categories then LabelOf(categories[operation]) else Some(Other)
  }

  function One(b: bool): int { if b then 1 else 0 }

  predicate Stage(f: Field) { f.E2e? || f.InMes? || f.InLlm? || f.Local? }

  function ChatShare(f: Fact, m: Metric): int
    requires f.Chat?
  {
    match m
    case Sum(Questions) => One(f.event.Started?)
    case Sum(ValidQuestions) => One(f.event.Routed? && f.capable)
    case Sum(field) => if Stage(field) && field in f.durations then f.durations[field] else 0
    case Tally(field) => One(Stage(field) && field in f.durations)
    case StatusOf(s) => One(StatusLabel(f.status) == Some(s))
    case _ => 0
  }

  function Tokens(f: Fact, field: Field): Option<int>
    requires f.LlmCall?
  {
    match field
    case Prompt => Some(f.prompt)
    case Completion => Some(f.completion)
    case Cached => Some(f.cached)
    case Reasoning => Some(f.reasoning)
    case _ => None
  }

  function LlmShare(f: Fact, m: Metric): int
    requires f.LlmCall?
  {
    match m
    case Sum(Attempts) => 1
    case Sum(field) => if Tokens(f, field).Some? then Tokens(f, field).value else 0
    case Tally(field) => One(Tokens(f, field).Some?)
    case _ => 0
  }

  function MesShare(f: Fact, categories: Categories, m: Metric): int
    requires f.MesCall?
  {
    match m
    case MesCalls => 1
    case Mes(kind) =>
      One(kind == if f.status == "completed" then MesCompleted else MesFailed) +
        One(CategoryOf(f.operation, categories) == Some(kind))
    case _ => 0
  }

  function Share(f: Fact, categories: Categories, m: Metric): int {
    match f
    case Chat(_, _, _, _, _, _) => ChatShare(f, m)
    case LlmCall(_, _, _, _, _, _) => LlmShare(f, m)
    case MesCall(_, _, _) => MesShare(f, categories, m)
  }

  // ---------------------------------------------------------------- what a bucket should hold

  function In(f: Fact, g: Granularity, key: int): bool { BucketKey(f.at, g) == key }

  function Total(facts: seq<Fact>, categories: Categories, g: Granularity, key: int, m: Metric): int {
    if facts == [] then 0
    else
      var n := |facts| - 1;
      Total(facts[..n], categories, g, key, m) + (if In(facts[n], g, key) then Share(facts[n], categories, m) else 0)
  }

  predicate Additive(m: Metric) { !m.Users? && !m.LogicalCalls? }

  function UserOf(f: Fact): string { if f.Chat? then f.user else "" }

  function CallOf(f: Fact): string { if f.LlmCall? then f.call else "" }

  /** Distinct non-empty names in a bucket. */
  function Names(facts: seq<Fact>, g: Granularity, key: int, name: Fact -> string): set<string> {
    set i | 0 <= i < |facts| && In(facts[i], g, key) && name(facts[i]) != "" :: name(facts[i])
  }

  function Value(facts: seq<Fact>, categories: Categories, g: Granularity, key: int, m: Metric): int {
    if m.Users? then |Names(facts, g, key, UserOf)|
    else if m.LogicalCalls? then |Names(facts, g, key, CallOf)|
    else Total(facts, categories, g, key, m)
  }

  /** Facts that make a bucket exist. A routed question without capability, status or duration does not. */
  predicate Touches(f: Fact) {
    f.Chat? ==> f.event.Started? || (f.event.Routed? && f.capable) || f.status != "" || AnyValue(Stages, f.durations)
  }

  ghost predicate Touched(facts: seq<Fact>, g: Granularity, key: int) {
    exists i :: 0 <= i < |facts| && In(facts[i], g, key) && Touches(facts[i])
  }

  predicate Classified(f: Fact, categories: Categories) { f.MesCall? ==> CategoryOf(f.operation, categories).Some? }

  type Buckets = map<int, Bucket>

  ghost predicate Tabulates(b: Buckets, facts: seq<Fact>, categories: Categories, g: Granularity) {
    && (forall key :: key in b <==> Touched(facts, g, key))
    && (forall key, m :: key in b ==> b[key](m) == Value(facts, categories, g, key, m))
  }

  // ---------------------------------------------------------------- the accumulation loops

  function Figure(b: Buckets, key: int, m: Metric): int { if key in b then b[key](m) else 0 }

  /** `buckets[key][m] += n`, where a missing bucket starts at zero everywhere. */
  function Bump(b: Buckets, key: int, m: Metric, n: int): Buckets {
    b[key := (x: Metric) => Figure(b, key, x) + (if x == m then n else 0)]
  }

  lemma BumpFigure(b: Buckets, key: int, m: Metric, n: int, k: int, x: Metric)
    ensures Figure(Bump(b, key, m, n), k, x) == Figure(b, k, x) + (if k == key && x == m then n else 0)
  {
  }

  /** `after` is `before` with one bucket raised by the given amounts, and created if need be. */
  ghost predicate Raised(before: Buckets, after: Buckets, key: int, by_: Metric -> int, touched: bool) {
    && after.Keys == before.Keys + (if touched then {key} else {})
    && (forall k, m :: Figure(after, k, m) == Figure(before, k, m) + (if k == key then by_(m) else 0))
  }

  function Held(names: map<int, set<string>>, key: int): set<string> { if key in names then names[key] else {} }

  function Noted(names: map<int, set<string>>, key: int, name: string): map<int, set<string>> {
    if name == "" then names else names[key := Held(names, key) + {name}]
  }

  lemma RaisedBump(b: Buckets, mid: Buckets, key: int, before: Metric -> int, after: Metric -> int, touched: bool,
                   m: Metric, n: int)
    requires Raised(b, mid, key, before, touched)
    requires forall x :: after(x) == before(x) + (if x == m then n else 0)
    ensures Raised(b, Bump(mid, key, m, n), key, after, true)
  {
    forall k, x
      ensures Figure(Bump(mid, key, m, n), k, x) == Figure(b, k, x) + (if k == key then after(x) else 0)
    {
      BumpFigure(mid, key, m, n, k, x);
    }
  }

  function Plus(share: Metric -> int, m: Metric, n: int): Metric -> int { x => share(x) + (if x == m then n else 0) }

  /** A raised bucket is raised by any amounts that agree. */
  lemma RaisedAlike(b: Buckets, after: Buckets, key: int, x: Metric -> int, y: Metric -> int, touched: bool)
    requires Raised(b, after, key, x, touched) && forall m :: x(m) == y(m)
    ensures Raised(b, after, key, y, touched)
  {
  }

  lemma RaisedTwice(b: Buckets, mid: Buckets, after: Buckets, key: int, x: Metric -> int, y: Metric -> int, tx: bool,
                    ty: bool)
    requires Raised(b, mid, key, x, tx) && Raised(mid, after, key, y, ty)
    ensures Raised(b, after, key, m => x(m) + y(m), tx || ty)
  {
  }

  /** What the fields with a value add: the value, and one to the field's count. */
  function FieldShare(m: Metric, fields: seq<Field>, values: map<Field, int>): int {
    match m
    case Sum(field) => if field in fields && field in values then values[field] else 0
    case Tally(field) => One(field in fields && field in values)
    case _ => 0
  }

  predicate AnyValue(fields: seq<Field>, values: map<Field, int>) { exists s :: s in fields && s in values }

  lemma FieldShareStep(done: seq<Field>, field: Field, values: map<Field, int>, m: Metric)
    requires field !in done
    ensures FieldShare(m, done + [field], values) ==
            FieldShare(m, done, values) + (if field in values && m == Sum(field) then values[field] else 0)
                                        + (if field in values && m == Tally(field) then 1 else 0)
  {
  }

  method AddFields(b: Buckets, key: int, fields: seq<Field>, values: map<Field, int>) returns (after: Buckets)
    requires forall i, j :: 0 <= i < j < |fields| ==> fields[i] != fields[j]
    ensures Raised(b, after, key, m => FieldShare(m, fields, values), AnyValue(fields, values))
  {
    after := b;
    for i := 0 to |fields|
      invariant Raised(b, after, key, m => FieldShare(m, fields[..i], values), AnyValue(fields[..i], values))
    {
      after := AddField(b, after, key, fields, i, values);
    }
    assert fields[..|fields|] == fields;
  }

  method AddField(ghost b: Buckets, mid: Buckets, key: int, fields: seq<Field>, i: nat, values: map<Field, int>)
    returns (after: Buckets)
    requires i < |fields| && forall i, j :: 0 <= i < j < |fields| ==> fields[i] != fields[j]
    requires Raised(b, mid, key, m => FieldShare(m, fields[..i], values), AnyValue(fields[..i], values))
    ensures Raised(b, after, key, m => FieldShare(m, fields[..i + 1], values), AnyValue(fields[..i + 1], values))
  {
    var field := fields[i];
    ghost var was, goal := (m: Metric) => FieldShare(m, fields[..i], values),
      (m: Metric) => FieldShare(m, fields[..i + 1], values);
    assert fields[..i + 1] == fields[..i] + [field];
    forall m
      ensures goal(m) == was(m) + (if field in values && m == Sum(field) then values[field] else 0)
                                + (if field in values && m == Tally(field) then 1 else 0)
    {
      FieldShareStep(fields[..i], field, values, m);
    }
    after := mid;
    if field in values {
      ghost var half := Plus(was, Sum(field), values[field]);
      after := Bump(mid, key, Sum(field), values[field]);
      RaisedBump(b, mid, key, was, half, AnyValue(fields[..i], values), Sum(field), values[field]);
      RaisedBump(b, after, key, half, goal, true, Tally(field), 1);
      after := Bump(after, key, Tally(field), 1);
      assert field in fields[..i + 1];
    } else {
      RaisedAlike(b, mid, key, was, goal, AnyValue(fields[..i], values));
    }
  }

  function EventShare(f: Fact, m: Metric): int
    requires f.Chat?
  {
    match m
    case Sum(Questions) => One(f.event.Started?)
    case Sum(ValidQuestions) => One(f.event.Routed? && f.capable)
    case StatusOf(s) => One(StatusLabel(f.status) == Some(s))
    case _ => 0
  }

  method AddEvent(b: Buckets, f: Fact, key: int) returns (after: Buckets)
    requires f.Chat?
    ensures Raised(b, after, key, m => EventShare(f, m), f.event.Started? || (f.event.Routed? && f.capable) ||
                   f.status != "")
  {
    after := b;
    if f.event.Started? {
      after := Bump(after, key, Sum(Questions), 1);
    } else if f.event.Routed? && f.capable {
      after := Bump(after, key, Sum(ValidQuestions), 1);
    }
    if f.status != "" {
      // Looking for the label creates the bucket, whether or not the label is known.
      var known := StatusLabel(f.status);
      after := if known.Some? then Bump(after, key, StatusOf(known.value), 1) else Bump(after, key, Users, 0);
    }
  }

  lemma ChatShareSplits(f: Fact, m: Metric)
    requires f.Chat?
    ensures ChatShare(f, m) == EventShare(f, m) + FieldShare(m, Stages, f.durations)
  {
    assert Stages[0] == E2e && Stages[1] == InMes && Stages[2] == InLlm && Stages[3] == Local;
  }

  method AddChat(b: Buckets, f: Fact, g: Granularity) returns (after: Buckets)
    requires f.Chat?
    ensures Raised(b, after, BucketKey(f.at, g), m => ChatShare(f, m), Touches(f))
  {
    var key := BucketKey(f.at, g);
    var mid := AddEvent(b, f, key);
    after := AddFields(mid, key, Stages, f.durations);
    ghost var x, y := (m: Metric) => EventShare(f, m), (m: Metric) => FieldShare(m, Stages, f.durations);
    ghost var touched := f.event.Started? || (f.event.Routed? && f.capable) || f.status != "";
    RaisedTwice(b, mid, after, key, x, y, touched, AnyValue(Stages, f.durations));
    forall m
      ensures x(m) + y(m) == ChatShare(f, m)
    {
      ChatShareSplits(f, m);
    }
    RaisedAlike(b, after, key, m => x(m) + y(m), m => ChatShare(f, m), Touches(f));
  }

  const TokenFields: seq<Field> := [Attempts, Prompt, Completion, Cached, Reasoning]

  function TokenValues(f: Fact): map<Field, int>
    requires f.LlmCall?
  {
    map[Prompt := f.prompt, Completion := f.completion, Cached := f.cached, Reasoning := f.reasoning]
  }

  lemma LlmShareSplits(f: Fact, m: Metric)
    requires f.LlmCall?
    ensures LlmShare(f, m) == One(m == Sum(Attempts)) + FieldShare(m, TokenFields, TokenValues(f))
  {
    assert TokenFields[1] == Prompt && TokenFields[2] == Completion && TokenFields[3] == Cached &&
           TokenFields[4] == Reasoning;
  }

  method AddLlm(b: Buckets, f: Fact, g: Granularity) returns (after: Buckets)
    requires f.LlmCall?
    ensures Raised(b, after, BucketKey(f.at, g), m => LlmShare(f, m), true)
  {
    var key := BucketKey(f.at, g);
    var mid := Bump(b, key, Sum(Attempts), 1);
    after := AddFields(mid, key, TokenFields, TokenValues(f));
    ghost var x, y := (m: Metric) => One(m == Sum(Attempts)), (m: Metric) => FieldShare(m, TokenFields, TokenValues(f));
    RaisedTwice(b, mid, after, key, x, y, true, AnyValue(TokenFields, TokenValues(f)));
    forall m
      ensures x(m) + y(m) == LlmShare(f, m)
    {
      LlmShareSplits(f, m);
    }
    RaisedAlike(b, after, key, m => x(m) + y(m), m => LlmShare(f, m), true);
  }

  /** `None` when the category has no metric to count into. */
  method AddMes(b: Buckets, f: Fact, categories: Categories, g: Granularity) returns (after: Option<Buckets>)
    requires f.MesCall?
    ensures after.None? <==> !Classified(f, categories)
    ensures after.Some? ==> Raised(b, after.value, BucketKey(f.at, g), m => MesShare(f, categories, m), true)
  {
    var key := BucketKey(f.at, g);
    var next := Bump(b, key, MesCalls, 1);
    next := Bump(next, key, Mes(if f.status == "completed" then MesCompleted else MesFailed), 1);
    var category := CategoryOf(f.operation, categories);
    if category.None? {
      return None;
    }
    return Some(Bump(next, key, Mes(category.value), 1));
  }

  /** The buckets hold the totals of the facts seen so far, and the name sets their names. */
  ghost predicate Tracks(b: Buckets, facts: seq<Fact>, categories: Categories, g: Granularity) {
    && (forall key :: key in b <==> Touched(facts, g, key))
    && (forall key, m :: Figure(b, key, m) == Total(facts, categories, g, key, m))
  }

  type NameSets = map<int, set<string>>

  ghost predicate NamesTrack(names: NameSets, facts: seq<Fact>, g: Granularity, name: Fact -> string) {
    forall key :: Held(names, key) == Names(facts, g, key, name)
  }

  lemma TotalAppend(facts: seq<Fact>, f: Fact, categories: Categories, g: Granularity, key: int, m: Metric)
    ensures Total(facts + [f], categories, g, key, m) ==
            Total(facts, categories, g, key, m) + (if In(f, g, key) then Share(f, categories, m) else 0)
  {
    assert (facts + [f])[..|facts|] == facts;
  }

  lemma TouchedAppend(facts: seq<Fact>, f: Fact, g: Granularity, key: int)
    ensures Touched(facts + [f], g, key) <==> Touched(facts, g, key) || (In(f, g, key) && Touches(f))
  {
    var all := facts + [f];
    if Touched(facts, g, key) {
      var i :| 0 <= i < |facts| && In(facts[i], g, key) && Touches(facts[i]);
      assert all[i] == facts[i];
    }
    assert all[|facts|] == f;
  }

  lemma TracksStep(b: Buckets, after: Buckets, facts: seq<Fact>, f: Fact, categories: Categories, g: Granularity)
    requires Tracks(b, facts, categories, g)
    requires Raised(b, after, BucketKey(f.at, g), m => Share(f, categories, m), Touches(f))
    ensures Tracks(after, facts + [f], categories, g)
  {
    forall key
      ensures key in after <==> Touched(facts + [f], g, key)
    {
      TouchedAppend(facts, f, g, key);
    }
    forall key, m
      ensures Figure(after, key, m) == Total(facts + [f], categories, g, key, m)
    {
      TotalAppend(facts, f, categories, g, key, m);
    }
  }

  lemma NamesAppend(facts: seq<Fact>, f: Fact, g: Granularity, key: int, name: Fact -> string)
    ensures Names(facts + [f], g, key, name) ==
            Names(facts, g, key, name) + (if In(f, g, key) && name(f) != "" then {name(f)} else {})
  {
    var all := facts + [f];
    forall n
      ensures n in Names(all, g, key, name) <==>
              n in Names(facts, g, key, name) || (In(f, g, key) && name(f) != "" && n == name(f))
    {
      if n in Names(facts, g, key, name) {
        var i :| 0 <= i < |facts| && In(facts[i], g, key) && name(facts[i]) != "" && name(facts[i]) == n;
        assert all[i] == facts[i];
      }
      assert all[|facts|] == f;
    }
  }

  lemma NamesStep(names: NameSets, facts: seq<Fact>, f: Fact, g: Granularity, name: Fact -> string)
    requires NamesTrack(names, facts, g, name)
    ensures NamesTrack(Noted(names, BucketKey(f.at, g), name(f)), facts + [f], g, name)
  {
    forall key
      ensures Held(Noted(names, BucketKey(f.at, g), name(f)), key) == Names(facts + [f], g, key, name)
    {
      NamesAppend(facts, f, g, key, name);
    }
  }

  predicate AllChats(facts: seq<Fact>) { forall i :: 0 <= i < |facts| ==> facts[i].Chat? }
  predicate AllLlm(facts: seq<Fact>) { forall i :: 0 <= i < |facts| ==> facts[i].LlmCall? }
  predicate AllMes(facts: seq<Fact>) { forall i :: 0 <= i < |facts| ==> facts[i].MesCall? }

  method AddChats(chats: seq<Fact>, categories: Categories, g: Granularity) returns (b: Buckets, users: NameSets)
    requires AllChats(chats)
    ensures Tracks(b, chats, categories, g) && NamesTrack(users, chats, g, UserOf) &&
            NamesTrack(map[], chats, g, CallOf)
  {
    b, users := map[], map[];
    for i := 0 to |chats|
      invariant Tracks(b, chats[..i], categories, g)
      invariant NamesTrack(users, chats[..i], g, UserOf) && NamesTrack(map[], chats[..i], g, CallOf)
    {
      var f := chats[i];
      ghost var before := b;
      b := AddChat(b, f, g);
      RaisedAlike(before, b, BucketKey(f.at, g), m => ChatShare(f, m), m => Share(f, categories, m), Touches(f));
      TracksStep(before, b, chats[..i], f, categories, g);
      NamesStep(users, chats[..i], f, g, UserOf);
      NamesStep(map[], chats[..i], f, g, CallOf);
      users := Noted(users, BucketKey(f.at, g), f.user);
      assert chats[..i + 1] == chats[..i] + [f];
    }
    assert chats[..|chats|] == chats;
  }

  method AddLlms(start: Buckets, facts: seq<Fact>, llm: seq<Fact>, ghost users: NameSets, categories: Categories,
                 g: Granularity)
    returns (b: Buckets, calls: NameSets)
    requires AllLlm(llm) && Tracks(start, facts, categories, g)
    requires NamesTrack(users, facts, g, UserOf) && NamesTrack(map[], facts, g, CallOf)
    ensures Tracks(b, facts + llm, categories, g) && NamesTrack(users, facts + llm, g, UserOf) &&
            NamesTrack(calls, facts + llm, g, CallOf)
  {
    b, calls := start, map[];
    assert facts + llm[..0] == facts;
    for i := 0 to |llm|
      invariant Tracks(b, facts + llm[..i], categories, g)
      invariant NamesTrack(users, facts + llm[..i], g, UserOf) && NamesTrack(calls, facts + llm[..i], g, CallOf)
    {
      var f := llm[i];
      ghost var before, seen := b, facts + llm[..i];
      b := AddLlm(b, f, g);
      RaisedAlike(before, b, BucketKey(f.at, g), m => LlmShare(f, m), m => Share(f, categories, m), Touches(f));
      TracksStep(before, b, seen, f, categories, g);
      NamesStep(users, seen, f, g, UserOf);
      NamesStep(calls, seen, f, g, CallOf);
      calls := Noted(calls, BucketKey(f.at, g), f.call);
      assert facts + llm[..i + 1] == seen + [f];
    }
    assert facts + llm[..|llm|] == facts + llm;
  }

  method AddMesCalls(start: Buckets, facts: seq<Fact>, mes: seq<Fact>, ghost users: NameSets, ghost calls: NameSets,
                     categories: Categories, g: Granularity)
    returns (b: Option<Buckets>)
    requires AllMes(mes) && Tracks(start, facts, categories, g)
    requires NamesTrack(users, facts, g, UserOf) && NamesTrack(calls, facts, g, CallOf)
    ensures b.None? <==> exists i :: 0 <= i < |mes| && !Classified(mes[i], categories)
    ensures b.Some? ==> Tracks(b.value, facts + mes, categories, g)
    ensures NamesTrack(users, facts + mes, g, UserOf) || b.None?
    ensures NamesTrack(calls, facts + mes, g, CallOf) || b.None?
  {
    var now := start;
    assert facts + mes[..0] == facts;
    for i := 0 to |mes|
      invariant Tracks(now, facts + mes[..i], categories, g)
      invariant NamesTrack(users, facts + mes[..i], g, UserOf) && NamesTrack(calls, facts + mes[..i], g, CallOf)
      invariant forall j :: 0 <= j < i ==> Classified(mes[j], categories)
    {
      var f := mes[i];
      ghost var seen := facts + mes[..i];
      var next := AddMes(now, f, categories, g);
      if next.None? {
        return None;
      }
      RaisedAlike(now, next.value, BucketKey(f.at, g), m => MesShare(f, categories, m), m => Share(f, categories, m),
                  Touches(f));
      TracksStep(now, next.value, seen, f, categories, g);
      NamesStep(users, seen, f, g, UserOf);
      NamesStep(calls, seen, f, g, CallOf);
      now := next.value;
      assert facts + mes[..i + 1] == seen + [f];
    }
    assert facts + mes[..|mes|] == facts + mes;
    return Some(now);
  }

  function Counted(bucket: Bucket, users: int, calls: int): Bucket {
    (m: Metric) => if m.Users? then users else if m.LogicalCalls? then calls else bucket(m)
  }

  ghost predicate NamesCounted(out: Buckets, b: Buckets, users: NameSets, calls: NameSets) {
    forall key :: key in out ==> key in b && out[key] == Counted(b[key], |Held(users, key)|, |Held(calls, key)|)
  }

  lemma SomeMember<T>(s: set<T>) returns (x: T)
    requires s != {}
    ensures x in s
  {
    x :| x in s;
  }

  method CountNames(b: Buckets, users: NameSets, calls: NameSets) returns (out: Buckets)
    ensures out.Keys == b.Keys && NamesCounted(out, b, users, calls)
  {
    out := map[];
    var todo := b.Keys;
    while todo != {}
      invariant todo <= b.Keys && out.Keys == b.Keys - todo && NamesCounted(out, b, users, calls)
      decreases |todo|
    {
      ghost var some := SomeMember(todo);
      var key :| key in todo;
      todo := todo - {key};
      out := out[key := Counted(b[key], |Held(users, key)|, |Held(calls, key)|)];
    }
  }

  /** The buckets of the given facts, or nothing when an operation's category is not a known one. */
  method ComputeBucketMetrics(chats: seq<Fact>, llm: seq<Fact>, mes: seq<Fact>, categories: Categories, g: Granularity)
    returns (b: Option<Buckets>)
    requires AllChats(chats) && AllLlm(llm) && AllMes(mes)
    ensures b.None? <==> exists i :: 0 <= i < |mes| && !Classified(mes[i], categories)
    ensures b.Some? ==> Tabulates(b.value, chats + llm + mes, categories, g)
  {
    var first, users := AddChats(chats, categories, g);
    var second, calls := AddLlms(first, chats, llm, users, categories, g);
    var third := AddMesCalls(second, chats + llm, mes, users, calls, categories, g);
    if third.None? {
      return None;
    }
    var out := CountNames(third.value, users, calls);
    assert Tracks(third.value, chats + llm + mes, categories, g);
    forall key, m | key in out
      ensures out[key](m) == Value(chats + llm + mes, categories, g, key, m)
    {
      assert Figure(third.value, key, m) == Total(chats + llm + mes, categories, g, key, m);
      assert Held(users, key) == Names(chats + llm + mes, g, key, UserOf);
      assert Held(calls, key) == Names(chats + llm + mes, g, key, CallOf);
    }
    return Some(out);
  }

  // ---------------------------------------------------------------- hours and days agree

  function HourOf(day: int, h: int): int { day + 3600 * h }

  predicate IsDay(day: int) { BucketKey(day, Day) == day }

  function OverHours(facts: seq<Fact>, categories: Categories, day: int, m: Metric, hours: nat): int {
    if hours == 0 then 0
    else OverHours(facts, categories, day, m, hours - 1) + Total(facts, categories, Hour, HourOf(day, hours - 1), m)
  }

  /** The hours of a day partition it. */
  lemma HourWithinDay(at: int, day: int)
    requires IsDay(day)
    ensures BucketKey(at, Day) == day <==> 0 <= (at - day) / 3600 < 24
    ensures forall h: int :: BucketKey(at, Hour) == HourOf(day, h) <==> h == (at - day) / 3600
  {
    var d, q := day / 86400, (at - day) / 3600;
    Quotient(at, 3600, 24 * d + q);
    Quotient(at, 86400, if q >= 0 then d + q / 24 else at / 86400);
  }

  lemma Quotient(x: int, w: int, q: int)
    requires w > 0 && w * q <= x < w * q + w
    ensures x / w == q
  {
    if x / w < q {
      Scaled(w, x / w + 1, q);
    } else if x / w > q {
      Scaled(w, q + 1, x / w);
    }
  }

  lemma Scaled(w: int, a: int, b: int)
    requires w > 0 && a <= b
    ensures w * a <= w * b
  {
  }

  lemma {:induction false} OverHoursAppend(facts: seq<Fact>, f: Fact, categories: Categories, day: int, m: Metric,
                                           hours: nat, q: int)
    requires forall h :: In(f, Hour, HourOf(day, h)) <==> h == q
    ensures OverHours(facts + [f], categories, day, m, hours) ==
            OverHours(facts, categories, day, m, hours) + (if 0 <= q < hours then Share(f, categories, m) else 0)
  {
    if hours > 0 {
      OverHoursAppend(facts, f, categories, day, m, hours - 1, q);
      TotalAppend(facts, f, categories, Hour, HourOf(day, hours - 1), m);
    }
  }

  lemma {:induction false} OverHoursEmpty(categories: Categories, day: int, m: Metric, hours: nat)
    ensures OverHours([], categories, day, m, hours) == 0
  {
    if hours > 0 {
      OverHoursEmpty(categories, day, m, hours - 1);
    }
  }

  /** Each additive metric of a day is the sum over its twenty-four hours. */
  lemma {:induction false} DayIsSumOfHours(facts: seq<Fact>, categories: Categories, day: int, m: Metric)
    requires IsDay(day)
    ensures Total(facts, categories, Day, day, m) == OverHours(facts, categories, day, m, 24)
  {
    if facts == [] {
      OverHoursEmpty(categories, day, m, 24);
    } else {
      var n := |facts| - 1;
      assert facts == facts[..n] + [facts[n]];
      DayIsSumOfHours(facts[..n], categories, day, m);
      HourWithinDay(facts[n].at, day);
      OverHoursAppend(facts[..n], facts[n], categories, day, m, 24, (facts[n].at - day) / 3600);
    }
  }

  /** A day has a bucket exactly when one of its hours has. */
  lemma DayTouchedByHours(facts: seq<Fact>, day: int)
    requires IsDay(day)
    ensures Touched(facts, Day, day) <==> exists h :: 0 <= h < 24 && Touched(facts, Hour, HourOf(day, h))
  {
    if Touched(facts, Day, day) {
      var i :| 0 <= i < |facts| && In(facts[i], Day, day) && Touches(facts[i]);
      HourWithinDay(facts[i].at, day);
      assert In(facts[i], Hour, HourOf(day, (facts[i].at - day) / 3600));
    }
    if h :| 0 <= h < 24 && Touched(facts, Hour, HourOf(day, h)) {
      var i :| 0 <= i < |facts| && In(facts[i], Hour, HourOf(day, h)) && Touches(facts[i]);
      HourWithinDay(facts[i].at, day);
    }
  }

  // ---------------------------------------------------------------- distinct names

  function NamesOver(facts: seq<Fact>, day: int, name: Fact -> string, hours: nat): set<string> {
    if hours == 0 then {} else NamesOver(facts, day, name, hours - 1) + Names(facts, Hour, HourOf(day, hours - 1), name)
  }

  function CountsOver(facts: seq<Fact>, day: int, name: Fact -> string, hours: nat): int {
    if hours == 0 then 0
    else CountsOver(facts, day, name, hours - 1) + |Names(facts, Hour, HourOf(day, hours - 1), name)|
  }

  lemma {:induction false} NamesOverMembers(facts: seq<Fact>, day: int, name: Fact -> string, hours: nat, n: string)
    ensures n in NamesOver(facts, day, name, hours) <==>
            exists h :: 0 <= h < hours && n in Names(facts, Hour, HourOf(day, h), name)
  {
    if hours > 0 {
      NamesOverMembers(facts, day, name, hours - 1, n);
    }
  }

  lemma UnionAtMost(a: set<string>, b: set<string>)
    ensures |a + b| <= |a| + |b|
  {
    assert a + b == a + (b - a);
    assert |b - a| <= |b| by {
      assert b == (b - a) + (b * a);
    }
  }

  lemma {:induction false} NamesOverAtMost(facts: seq<Fact>, day: int, name: Fact -> string, hours: nat)
    ensures |NamesOver(facts, day, name, hours)| <= CountsOver(facts, day, name, hours)
  {
    if hours > 0 {
      NamesOverAtMost(facts, day, name, hours - 1);
      UnionAtMost(NamesOver(facts, day, name, hours - 1), Names(facts, Hour, HourOf(day, hours - 1), name));
    }
  }

  /** The names of a day are the union of the names of its hours. */
  lemma NamesOfDay(facts: seq<Fact>, day: int, name: Fact -> string)
    requires IsDay(day)
    ensures Names(facts, Day, day, name) == NamesOver(facts, day, name, 24)
  {
    forall n
      ensures n in Names(facts, Day, day, name) <==> n in NamesOver(facts, day, name, 24)
    {
      NamesOverMembers(facts, day, name, 24, n);
      if n in Names(facts, Day, day, name) {
        var i :| 0 <= i < |facts| && In(facts[i], Day, day) && name(facts[i]) != "" && name(facts[i]) == n;
        HourWithinDay(facts[i].at, day);
        assert In(facts[i], Hour, HourOf(day, (facts[i].at - day) / 3600));
      }
      if h :| 0 <= h < 24 && n in Names(facts, Hour, HourOf(day, h), name) {
        var i :| 0 <= i < |facts| && In(facts[i], Hour, HourOf(day, h)) && name(facts[i]) != "" && name(facts[i]) == n;
        HourWithinDay(facts[i].at, day);
      }
    }
  }

  lemma SubsetAtMost(a: set<string>, b: set<string>)
    requires a <= b
    ensures |a| <= |b|
  {
    assert b == a + (b - a);
  }

  /** A day's distinct logical calls lie between the most of any hour and the sum over the hours. */
  lemma LogicalCallsBetween(facts: seq<Fact>, categories: Categories, day: int, h: int)
    requires IsDay(day) && 0 <= h < 24
    ensures Value(facts, categories, Hour, HourOf(day, h), LogicalCalls) <=
            Value(facts, categories, Day, day, LogicalCalls)
    ensures Value(facts, categories, Day, day, LogicalCalls) <= CountsOver(facts, day, CallOf, 24)
  {
    NamesOfDay(facts, day, CallOf);
    NamesOverAtMost(facts, day, CallOf, 24);
    forall n | n in Names(facts, Hour, HourOf(day, h), CallOf)
      ensures n in NamesOver(facts, day, CallOf, 24)
    {
      NamesOverMembers(facts, day, CallOf, 24, n);
    }
    SubsetAtMost(Names(facts, Hour, HourOf(day, h), CallOf), NamesOver(facts, day, CallOf, 24));
  }

  // ---------------------------------------------------------------- customer-system calls

  /** A category that bears the name of a status. */
  predicate Odd(f: Fact, categories: Categories) {
    f.MesCall? && CategoryOf(f.operation, categories) in {Some(MesCompleted), Some(MesFailed)}
  }

  function OddCalls(facts: seq<Fact>, categories: Categories, g: Granularity, key: int): nat {
    if facts == [] then 0
    else
      var n := |facts| - 1;
      OddCalls(facts[..n], categories, g, key) + (if In(facts[n], g, key) && Odd(facts[n], categories) then 1 else 0)
  }

  lemma {:induction false} OddCallsZero(facts: seq<Fact>, categories: Categories, g: Granularity, key: int)
    ensures OddCalls(facts, categories, g, key) == 0 <==>
            forall i :: 0 <= i < |facts| && In(facts[i], g, key) ==> !Odd(facts[i], categories)
  {
    if facts != [] {
      var n := |facts| - 1;
      OddCallsZero(facts[..n], categories, g, key);
      assert facts == facts[..n] + [facts[n]];
    }
  }

  function StatusSum(facts: seq<Fact>, categories: Categories, g: Granularity, key: int): int {
    Total(facts, categories, g, key, Mes(MesCompleted)) + Total(facts, categories, g, key, Mes(MesFailed))
  }

  function CategorySum(facts: seq<Fact>, categories: Categories, g: Granularity, key: int): int {
    Total(facts, categories, g, key, Mes(Output)) + Total(facts, categories, g, key, Mes(Payroll)) +
    Total(facts, categories, g, key, Mes(Order)) + Total(facts, categories, g, key, Mes(Other))
  }

  lemma OneCall(f: Fact, categories: Categories)
    requires Classified(f, categories)
    ensures Share(f, categories, MesCalls) + One(Odd(f, categories)) ==
            Share(f, categories, Mes(MesCompleted)) + Share(f, categories, Mes(MesFailed))
    ensures Share(f, categories, MesCalls) - One(Odd(f, categories)) ==
            Share(f, categories, Mes(Output)) + Share(f, categories, Mes(Payroll)) +
            Share(f, categories, Mes(Order)) + Share(f, categories, Mes(Other))
  {
  }

  lemma {:induction false} CallsByStatus(facts: seq<Fact>, categories: Categories, g: Granularity, key: int)
    requires forall i :: 0 <= i < |facts| ==> Classified(facts[i], categories)
    ensures Total(facts, categories, g, key, MesCalls) + OddCalls(facts, categories, g, key) ==
            Total(facts, categories, g, key, Mes(MesCompleted)) + Total(facts, categories, g, key, Mes(MesFailed))
    ensures Total(facts, categories, g, key, MesCalls) - OddCalls(facts, categories, g, key) ==
            CategorySum(facts, categories, g, key)
  {
    if facts != [] {
      var n := |facts| - 1;
      CallsByStatus(facts[..n], categories, g, key);
      OneCall(facts[n], categories);
    }
  }

  /**
    The calls of a bucket are its completed and failed calls, and the sum over the four categories,
    if and only if no operation called in it has a category named like a status.
  */
  lemma MesCallsAgree(facts: seq<Fact>, categories: Categories, g: Granularity, key: int)
    requires forall i :: 0 <= i < |facts| ==> Classified(facts[i], categories)
    ensures var calls, plain := Total(facts, categories, g, key, MesCalls),
                                forall i :: 0 <= i < |facts| && In(facts[i], g, key) ==> !Odd(facts[i], categories);
            && (calls == StatusSum(facts, categories, g, key) <==> plain)
            && (calls == CategorySum(facts, categories, g, key) <==> plain)
  {
    CallsByStatus(facts, categories, g, key);
    OddCallsZero(facts, categories, g, key);
  }

  // ---------------------------------------------------------------- windows

  datatype Span = Span(start: int, end: int)

  predicate InSpan(f: Fact, w: Span) { w.start <= f.at < w.end }

  /** The facts the store lists for a window. */
  function Within(facts: seq<Fact>, w: Span): seq<Fact> {
    if facts == [] then []
    else
      var n := |facts| - 1;
      if InSpan(facts[n], w) then Within(facts[..n], w) + [facts[n]] else Within(facts[..n], w)
  }

  lemma {:induction false} WithinConcat(a: seq<Fact>, b: seq<Fact>, w: Span)
    ensures Within(a + b, w) == Within(a, w) + Within(b, w)
  {
    if b == [] {
      assert a + b == a;
    } else {
      var n := |b| - 1;
      assert (a + b)[..|a| + n] == a + b[..n];
      WithinConcat(a, b[..n], w);
    }
  }

  lemma {:induction false} WithinMembers(facts: seq<Fact>, w: Span, f: Fact)
    ensures f in Within(facts, w) <==> f in facts && InSpan(f, w)
  {
    if facts != [] {
      var n := |facts| - 1;
      WithinMembers(facts[..n], w, f);
      assert facts == facts[..n] + [facts[n]];
    }
  }

  predicate Left(f: Fact, w: Span, g: Granularity, key: int) { In(f, g, key) && !InSpan(f, w) }

  /** What a window leaves out of a bucket's total. */
  function Missing(facts: seq<Fact>, w: Span, categories: Categories, g: Granularity, key: int, m: Metric): int {
    if facts == [] then 0
    else
      var n := |facts| - 1;
      Missing(facts[..n], w, categories, g, key, m) +
      (if In(facts[n], g, key) && !InSpan(facts[n], w) then Share(facts[n], categories, m) else 0)
  }

  lemma {:induction false} WindowSplits(facts: seq<Fact>, w: Span, categories: Categories, g: Granularity, key: int,
                                        m: Metric)
    ensures Total(facts, categories, g, key, m) ==
            Total(Within(facts, w), categories, g, key, m) + Missing(facts, w, categories, g, key, m)
  {
    if facts != [] {
      var n := |facts| - 1;
      WindowSplits(facts[..n], w, categories, g, key, m);
      if InSpan(facts[n], w) {
        assert Within(facts, w) == Within(facts[..n], w) + [facts[n]];
        TotalAppend(Within(facts[..n], w), facts[n], categories, g, key, m);
      } else {
        assert Within(facts, w) == Within(facts[..n], w);
      }
    }
  }

  /** A fact of the bucket that the window leaves out although it adds something. */
  ghost predicate Loses(f: Fact, w: Span, categories: Categories, g: Granularity, key: int) {
    In(f, g, key) && !InSpan(f, w) && exists m :: Share(f, categories, m) != 0
  }

  lemma {:induction false} NothingMissing(facts: seq<Fact>, w: Span, categories: Categories, g: Granularity, key: int,
                                          m: Metric)
    requires forall i :: 0 <= i < |facts| ==> !Loses(facts[i], w, categories, g, key)
    ensures Missing(facts, w, categories, g, key, m) == 0
  {
    if facts != [] {
      NothingMissing(facts[..|facts| - 1], w, categories, g, key, m);
    }
  }

  /** Metrics that count, and so never fall. */
  predicate Counting(m: Metric) { m.Sum? ==> m.field in {Questions, ValidQuestions, Attempts} }

  lemma CountingShare(f: Fact, categories: Categories, m: Metric)
    requires Counting(m)
    ensures Share(f, categories, m) >= 0
  {
  }

  /** A fact that adds anything adds to some count: every value comes with a count of one. */
  lemma CountWitness(f: Fact, categories: Categories, m: Metric) returns (c: Metric)
    requires Share(f, categories, m) != 0
    ensures Counting(c) && Share(f, categories, c) > 0
  {
    if Counting(m) {
      CountingShare(f, categories, m);
      c := m;
    } else {
      c := Tally(m.field);
    }
  }

  lemma {:induction false} MissingCounts(facts: seq<Fact>, w: Span, categories: Categories, g: Granularity, key: int,
                                         m: Metric)
    requires Counting(m)
    ensures Missing(facts, w, categories, g, key, m) >= 0
    ensures (exists i :: 0 <= i < |facts| && Left(facts[i], w, g, key) && Share(facts[i], categories, m) > 0) ==>
              Missing(facts, w, categories, g, key, m) > 0
  {
    if facts != [] {
      var n := |facts| - 1;
      MissingCounts(facts[..n], w, categories, g, key, m);
      CountingShare(facts[n], categories, m);
      assert forall i :: 0 <= i < n ==> facts[..n][i] == facts[i];
    }
  }

  /**
    A window computes a bucket's additive figures as the whole stream would, if and only if it
    leaves out no fact of the bucket that adds anything.
  */
  lemma PartialBucket(facts: seq<Fact>, w: Span, categories: Categories, g: Granularity, key: int)
    ensures SameTotals(Within(facts, w), facts, categories, g, key) <==>
            (forall i :: 0 <= i < |facts| ==> !Loses(facts[i], w, categories, g, key))
  {
    if forall i :: 0 <= i < |facts| ==> !Loses(facts[i], w, categories, g, key) {
      forall m
        ensures Total(Within(facts, w), categories, g, key, m) == Total(facts, categories, g, key, m)
      {
        WindowSplits(facts, w, categories, g, key, m);
        NothingMissing(facts, w, categories, g, key, m);
      }
    } else {
      var i :| 0 <= i < |facts| && Loses(facts[i], w, categories, g, key);
      var m :| Share(facts[i], categories, m) != 0;
      var c := CountWitness(facts[i], categories, m);
      MissingCounts(facts, w, categories, g, key, c);
      WindowSplits(facts, w, categories, g, key, c);
      assert Total(Within(facts, w), categories, g, key, c) != Total(facts, categories, g, key, c);
    }
  }

  /** Every name the window leaves out is also met inside it. */
  ghost predicate NamesMet(facts: seq<Fact>, w: Span, g: Granularity, key: int, name: Fact -> string) {
    Names(facts, g, key, name) <= Names(Within(facts, w), g, key, name)
  }

  lemma WindowNames(facts: seq<Fact>, w: Span, g: Granularity, key: int, name: Fact -> string)
    ensures Names(Within(facts, w), g, key, name) <= Names(facts, g, key, name)
    ensures |Names(Within(facts, w), g, key, name)| == |Names(facts, g, key, name)| <==>
            NamesMet(facts, w, g, key, name)
  {
    var some := Within(facts, w);
    forall n | n in Names(some, g, key, name)
      ensures n in Names(facts, g, key, name)
    {
      var i :| 0 <= i < |some| && In(some[i], g, key) && name(some[i]) != "" && name(some[i]) == n;
      WithinMembers(facts, w, some[i]);
      var j :| 0 <= j < |facts| && facts[j] == some[i];
    }
    SizeTells(Names(some, g, key, name), Names(facts, g, key, name));
  }

  lemma SizeTells(a: set<string>, b: set<string>)
    requires a <= b
    ensures |a| == |b| <==> b <= a
  {
    assert b == a + (b - a);
    if b <= a {
      assert a == b;
    }
  }

  /**
    A window computes every figure of a bucket, distinct counts included, as the whole stream would,
    if and only if it leaves out no fact of the bucket that adds anything, and every user and every
    logical call it leaves out is also met inside it.
  */
  lemma PartialFigures(facts: seq<Fact>, w: Span, categories: Categories, g: Granularity, key: int)
    ensures SameValues(Within(facts, w), facts, categories, g, key) <==>
            && (forall i :: 0 <= i < |facts| ==> !Loses(facts[i], w, categories, g, key))
            && NamesMet(facts, w, g, key, UserOf) && NamesMet(facts, w, g, key, CallOf)
  {
    var some := Within(facts, w);
    PartialBucket(facts, w, categories, g, key);
    WindowNames(facts, w, g, key, UserOf);
    WindowNames(facts, w, g, key, CallOf);
    AllValues(some, facts, categories, g, key);
    assert SameCounts(some, facts, g, key) <==>
           NamesMet(facts, w, g, key, UserOf) && NamesMet(facts, w, g, key, CallOf);
  }

  ghost predicate SameValues(a: seq<Fact>, b: seq<Fact>, categories: Categories, g: Granularity, key: int) {
    forall m :: Value(a, categories, g, key, m) == Value(b, categories, g, key, m)
  }

  ghost predicate SameTotals(a: seq<Fact>, b: seq<Fact>, categories: Categories, g: Granularity, key: int) {
    forall m :: Total(a, categories, g, key, m) == Total(b, categories, g, key, m)
  }

  ghost predicate SameCounts(a: seq<Fact>, b: seq<Fact>, g: Granularity, key: int) {
    && |Names(a, g, key, UserOf)| == |Names(b, g, key, UserOf)|
    && |Names(a, g, key, CallOf)| == |Names(b, g, key, CallOf)|
  }

  /** All figures agree exactly when the totals and the two distinct counts do. */
  lemma AllValues(a: seq<Fact>, b: seq<Fact>, categories: Categories, g: Granularity, key: int)
    ensures SameValues(a, b, categories, g, key) <==> SameTotals(a, b, categories, g, key) && SameCounts(a, b, g, key)
  {
    if SameValues(a, b, categories, g, key) {
      assert Value(a, categories, g, key, Users) == Value(b, categories, g, key, Users);
      assert Value(a, categories, g, key, LogicalCalls) == Value(b, categories, g, key, LogicalCalls);
      forall m
        ensures Total(a, categories, g, key, m) == Total(b, categories, g, key, m)
      {
        assert Value(a, categories, g, key, m) == Value(b, categories, g, key, m);
        if !Additive(m) {
          NameTotalsAreZero(a, categories, g, key, m);
          NameTotalsAreZero(b, categories, g, key, m);
        }
      }
    }
    if SameTotals(a, b, categories, g, key) && SameCounts(a, b, g, key) {
      forall m
        ensures Value(a, categories, g, key, m) == Value(b, categories, g, key, m)
      {
        assert Total(a, categories, g, key, m) == Total(b, categories, g, key, m);
      }
    }
  }

  /** The bucket lies inside the window. */
  predicate Inside(g: Granularity, key: int, w: Span) { w.start <= key && key + g.Width() <= w.end }

  lemma InsideSpan(f: Fact, g: Granularity, key: int, w: Span)
    requires Inside(g, key, w) && In(f, g, key)
    ensures InSpan(f, w)
  {
  }

  lemma NamesWithin(facts: seq<Fact>, w: Span, g: Granularity, key: int, name: Fact -> string)
    requires Inside(g, key, w)
    ensures Names(Within(facts, w), g, key, name) == Names(facts, g, key, name)
  {
    var some := Within(facts, w);
    forall n
      ensures n in Names(some, g, key, name) <==> n in Names(facts, g, key, name)
    {
      if n in Names(some, g, key, name) {
        var i :| 0 <= i < |some| && In(some[i], g, key) && name(some[i]) != "" && name(some[i]) == n;
        WithinMembers(facts, w, some[i]);
        var j :| 0 <= j < |facts| && facts[j] == some[i];
      }
      if n in Names(facts, g, key, name) {
        var i :| 0 <= i < |facts| && In(facts[i], g, key) && name(facts[i]) != "" && name(facts[i]) == n;
        InsideSpan(facts[i], g, key, w);
        WithinMembers(facts, w, facts[i]);
        var j :| 0 <= j < |some| && some[j] == facts[i];
      }
    }
  }

  /** Every figure of a bucket that lies inside the window is that of the whole stream. */
  lemma InsideBucketIsExact(facts: seq<Fact>, w: Span, categories: Categories, g: Granularity, key: int, m: Metric)
    requires Inside(g, key, w)
    ensures Value(Within(facts, w), categories, g, key, m) == Value(facts, categories, g, key, m)
  {
    NamesWithin(facts, w, g, key, UserOf);
    NamesWithin(facts, w, g, key, CallOf);
    WindowSplits(facts, w, categories, g, key, m);
    forall i | 0 <= i < |facts|
      ensures !Loses(facts[i], w, categories, g, key)
    {
      if In(facts[i], g, key) {
        InsideSpan(facts[i], g, key, w);
      }
    }
    NothingMissing(facts, w, categories, g, key, m);
  }

  // ---------------------------------------------------------------- runs over sliding windows

  datatype Slot = Slot(g: Granularity, key: int)

  type Table = map<Slot, Bucket>

  /** The stored bucket holds every figure that the given facts amount to. */
  ghost predicate Shows(table: Table, slot: Slot, facts: seq<Fact>, categories: Categories) {
    slot in table && forall m :: table[slot](m) == Value(facts, categories, slot.g, slot.key, m)
  }

  ghost predicate SameSlot(a: Table, b: Table, slot: Slot) {
    (slot in a <==> slot in b) && (slot in a ==> a[slot] == b[slot])
  }

  function Upsert(table: Table, b: Buckets, g: Granularity): Table {
    table + map slot | slot in (set key | key in b :: Slot(g, key)) :: b[slot.key]
  }

  lemma UpsertSlot(table: Table, b: Buckets, g: Granularity, slot: Slot)
    ensures if slot.g == g && slot.key in b then slot in Upsert(table, b, g) && Upsert(table, b, g)[slot] == b[slot.key]
            else SameSlot(Upsert(table, b, g), table, slot)
  {
    var keys := set key | key in b :: Slot(g, key);
    assert slot in keys <==> slot.g == g && slot.key in b;
  }

  /** A run writes a bucket when the window has something for it and no unknown category. */
  ghost predicate Writes(facts: seq<Fact>, w: Span, categories: Categories, slot: Slot) {
    AllClassified(Within(facts, w), categories) && Touched(Within(facts, w), slot.g, slot.key)
  }

  predicate AllClassified(facts: seq<Fact>, categories: Categories) {
    forall i :: 0 <= i < |facts| ==> Classified(facts[i], categories)
  }

  /** One run: the buckets it writes are replaced by the window's figures, all others stay. */
  ghost predicate RunOf(before: Table, after: Table, facts: seq<Fact>, w: Span, categories: Categories) {
    forall slot: Slot ::
      if Writes(facts, w, categories, slot) then Shows(after, slot, Within(facts, w), categories)
      else SameSlot(after, before, slot)
  }

  lemma BothUpserts(table: Table, hours: Buckets, days: Buckets, facts: seq<Fact>, w: Span, categories: Categories)
    requires AllClassified(Within(facts, w), categories)
    requires Tabulates(hours, Within(facts, w), categories, Hour) && Tabulates(days, Within(facts, w), categories, Day)
    ensures RunOf(table, Upsert(Upsert(table, hours, Hour), days, Day), facts, w, categories)
  {
    var mid := Upsert(table, hours, Hour);
    var after := Upsert(mid, days, Day);
    forall slot: Slot
      ensures if Writes(facts, w, categories, slot) then Shows(after, slot, Within(facts, w), categories)
              else SameSlot(after, table, slot)
    {
      UpsertSlot(table, hours, Hour, slot);
      UpsertSlot(mid, days, Day, slot);
    }
  }

  /** The last window, if any, that wrote the bucket. */
  ghost function LastWriter(facts: seq<Fact>, windows: seq<Span>, categories: Categories, slot: Slot): Option<Span> {
    if windows == [] then None
    else
      var n := |windows| - 1;
      if Writes(facts, windows[n], categories, slot) then Some(windows[n])
      else LastWriter(facts, windows[..n], categories, slot)
  }

  ghost predicate RunsOf(before: Table, after: Table, facts: seq<Fact>, windows: seq<Span>, categories: Categories) {
    forall slot: Slot ::
      match LastWriter(facts, windows, categories, slot)
      case None => SameSlot(after, before, slot)
      case Some(w) => Shows(after, slot, Within(facts, w), categories)
  }

  lemma RunsStep(before: Table, mid: Table, after: Table, facts: seq<Fact>, windows: seq<Span>, w: Span,
                 categories: Categories)
    requires RunsOf(before, mid, facts, windows, categories) && RunOf(mid, after, facts, w, categories)
    ensures RunsOf(before, after, facts, windows + [w], categories)
  {
    forall slot: Slot
      ensures match LastWriter(facts, windows + [w], categories, slot)
              case None => SameSlot(after, before, slot)
              case Some(last) => Shows(after, slot, Within(facts, last), categories)
    {
      assert (windows + [w])[..|windows|] == windows;
      assert if Writes(facts, w, categories, slot) then Shows(after, slot, Within(facts, w), categories)
             else SameSlot(after, mid, slot);
      assert match LastWriter(facts, windows, categories, slot)
        case None => SameSlot(mid, before, slot)
        case Some(last) => Shows(mid, slot, Within(facts, last), categories);
    }
  }

  lemma EmptyWindow(facts: seq<Fact>, w: Span)
    requires w.start >= w.end
    ensures Within(facts, w) == []
  {
    if Within(facts, w) != [] {
      WithinMembers(facts, w, Within(facts, w)[0]);
    }
  }

  class Engine {
    const chats: seq<Fact>
    const llm: seq<Fact>
    const mes: seq<Fact>
    const categories: Categories
    var table: Table

    constructor (chats: seq<Fact>, llm: seq<Fact>, mes: seq<Fact>, categories: Categories)
      ensures this.chats == chats && this.llm == llm && this.mes == mes && this.categories == categories &&
              table == map[]
    {
      this.chats, this.llm, this.mes, this.categories := chats, llm, mes, categories;
      table := map[];
    }

    ghost function Facts(): seq<Fact> { chats + llm + mes }

    ghost predicate Valid() { AllChats(chats) && AllLlm(llm) && AllMes(mes) }

    /** Replaces the buckets of one window in both granularities; an unknown category stops it before it writes. */
    method RollupRange(w: Span) returns (ok: bool)
      requires Valid()
      modifies this
      ensures ok <==> AllClassified(Within(Facts(), w), categories)
      ensures !ok ==> table == old(table)
      ensures RunOf(old(table), table, Facts(), w, categories)
    {
      if w.start >= w.end {
        EmptyWindow(Facts(), w);
        return true;
      }
      WithinKinds(chats, llm, mes, w, categories);
      var hours := ComputeBucketMetrics(Within(chats, w), Within(llm, w), Within(mes, w), categories, Hour);
      var days := ComputeBucketMetrics(Within(chats, w), Within(llm, w), Within(mes, w), categories, Day);
      if hours.None? || days.None? {
        return false;
      }
      BothUpserts(table, hours.value, days.value, Facts(), w, categories);
      table := Upsert(Upsert(table, hours.value, Hour), days.value, Day);
      return true;
    }

    /** A series of runs, failed ones included, leaves in each bucket the figures of the last window that wrote it. */
    method RunWindows(windows: seq<Span>)
      requires Valid()
      modifies this
      ensures RunsOf(old(table), table, Facts(), windows, categories)
    {
      for i := 0 to |windows|
        invariant RunsOf(old(table), table, Facts(), windows[..i], categories)
      {
        ghost var mid := table;
        var _ := RollupRange(windows[i]);
        RunsStep(old(table), mid, table, Facts(), windows[..i], windows[i], categories);
        assert windows[..i + 1] == windows[..i] + [windows[i]];
      }
      assert windows[..|windows|] == windows;
    }
  }

  lemma WithinKept(facts: seq<Fact>, w: Span)
    ensures forall i :: 0 <= i < |Within(facts, w)| ==> Within(facts, w)[i] in facts
  {
    forall i | 0 <= i < |Within(facts, w)|
      ensures Within(facts, w)[i] in facts
    {
      WithinMembers(facts, w, Within(facts, w)[i]);
    }
  }

  /** Only calls to the customer system can lack a category. */
  lemma OnlyCallsCount(others: seq<Fact>, mes: seq<Fact>, categories: Categories)
    requires forall i :: 0 <= i < |others| ==> !others[i].MesCall?
    ensures AllClassified(others + mes, categories) <==> AllClassified(mes, categories)
  {
    forall i | 0 <= i < |mes|
      ensures (others + mes)[|others| + i] == mes[i]
    {
    }
  }

  lemma WithinKinds(chats: seq<Fact>, llm: seq<Fact>, mes: seq<Fact>, w: Span, categories: Categories)
    requires AllChats(chats) && AllLlm(llm) && AllMes(mes)
    ensures AllChats(Within(chats, w)) && AllLlm(Within(llm, w)) && AllMes(Within(mes, w))
    ensures Within(chats + llm + mes, w) == Within(chats, w) + Within(llm, w) + Within(mes, w)
    ensures AllClassified(Within(chats + llm + mes, w), categories) <==> AllClassified(Within(mes, w), categories)
  {
    WithinKept(chats, w);
    WithinKept(llm, w);
    WithinKept(mes, w);
    WithinConcat(chats + llm, mes, w);
    WithinConcat(chats, llm, w);
    OnlyCallsCount(Within(chats, w) + Within(llm, w), Within(mes, w), categories);
  }

  /** The window leaves out no fact of the bucket that adds anything, and no user or logical call it does not meet. */
  ghost predicate LeavesNothing(facts: seq<Fact>, w: Span, categories: Categories, slot: Slot) {
    && (forall i :: 0 <= i < |facts| ==> !Loses(facts[i], w, categories, slot.g, slot.key))
    && NamesMet(facts, w, slot.g, slot.key, UserOf) && NamesMet(facts, w, slot.g, slot.key, CallOf)
  }

  /** A table that shows the figures of a window shows those of the stream exactly if the window leaves nothing out. */
  lemma ShowsStream(table: Table, facts: seq<Fact>, w: Span, categories: Categories, slot: Slot)
    requires Shows(table, slot, Within(facts, w), categories)
    ensures Shows(table, slot, facts, categories) <==> LeavesNothing(facts, w, categories, slot)
  {
    var some := Within(facts, w);
    PartialFigures(facts, w, categories, slot.g, slot.key);
    if Shows(table, slot, facts, categories) {
      forall m
        ensures Value(some, categories, slot.g, slot.key, m) == Value(facts, categories, slot.g, slot.key, m)
      {
        assert table[slot](m) == Value(some, categories, slot.g, slot.key, m);
      }
    }
  }

  /**
    After any series of runs, failed ones included, a bucket is stored with the figures of the whole
    stream if and only if the last window that wrote it leaves nothing of it out, or no window wrote
    it and it was so stored before.
  */
  lemma StoredIsStream(before: Table, after: Table, facts: seq<Fact>, windows: seq<Span>, categories: Categories,
                       slot: Slot)
    requires RunsOf(before, after, facts, windows, categories)
    ensures Shows(after, slot, facts, categories) <==>
            match LastWriter(facts, windows, categories, slot)
            case None => Shows(before, slot, facts, categories)
            case Some(w) => LeavesNothing(facts, w, categories, slot)
  {
    match LastWriter(facts, windows, categories, slot)
    case None => assert SameSlot(after, before, slot);
    case Some(w) => ShowsStream(after, facts, w, categories, slot);
  }

  /**
    Windows that slide erode: once a run starts after a fact of the bucket that adds something, and
    still finds a later fact of the bucket, the stored figures are no longer those of the stream.
  */
  lemma SlidingWindowErodes(before: Table, after: Table, facts: seq<Fact>, windows: seq<Span>, w: Span,
                            categories: Categories,
                            slot: Slot, early: nat, late: nat)
    requires RunsOf(before, after, facts, windows + [w], categories)
    requires early < |facts| && late < |facts| && facts[early].at < w.start <= facts[late].at < w.end
    requires In(facts[early], slot.g, slot.key) && In(facts[late], slot.g, slot.key) && Touches(facts[late])
    requires exists m :: Share(facts[early], categories, m) != 0
    requires AllClassified(Within(facts, w), categories)
    ensures slot in after && exists m :: after[slot](m) != Value(facts, categories, slot.g, slot.key, m)
  {
    var some := Within(facts, w);
    WithinMembers(facts, w, facts[late]);
    var j :| 0 <= j < |some| && some[j] == facts[late];
    assert Touched(some, slot.g, slot.key);
    assert LastWriter(facts, windows + [w], categories, slot) == Some(w);
    assert Loses(facts[early], w, categories, slot.g, slot.key);
    PartialBucket(facts, w, categories, slot.g, slot.key);
    var m :| Total(some, categories, slot.g, slot.key, m) != Total(facts, categories, slot.g, slot.key, m);
    NoTotal(some, facts, categories, slot.g, slot.key, m);
  }

  lemma {:induction false} NameTotalsAreZero(facts: seq<Fact>, categories: Categories, g: Granularity, key: int,
                                             m: Metric)
    requires !Additive(m)
    ensures Total(facts, categories, g, key, m) == 0
  {
    if facts != [] {
      NameTotalsAreZero(facts[..|facts| - 1], categories, g, key, m);
    }
  }

  lemma NoTotal(a: seq<Fact>, b: seq<Fact>, categories: Categories, g: Granularity, key: int, m: Metric)
    requires Total(a, categories, g, key, m) != Total(b, categories, g, key, m)
    ensures Value(a, categories, g, key, m) != Value(b, categories, g, key, m)
  {
    if !Additive(m) {
      NameTotalsAreZero(a, categories, g, key, m);
      NameTotalsAreZero(b, categories, g, key, m);
    }
  }
}
