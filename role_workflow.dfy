/** The role-selection workflow: a classifier picks one of three expert roles for
    the question, the chosen role answers, a judge checks the answer, and a failed
    check sends the run back to role selection. The three model calls are an
    `Llm` parameter whose results depend on the round and the prompt inputs. */
module RoleWorkflow {
  import opened Wrappers
  import opened Text

  // ---------------------------------------------------------------------------
  // The role table
  // ---------------------------------------------------------------------------

  datatype Role = Role(name: string, description: string, details: string)

  /** `ROLES`, with its keys in insertion order. */
  const RoleKeys: seq<string> := ["1", "2", "3"]

  const Roles: map<string, Role> := map[
    "1" := Role("一般知識エキスパート",
                "幅広分野の一般的な質問に答える",
                "幅広い分野の一般的な質問に対して、正確でわかりやすい回答を提供してください。"),
    "2" := Role("生成AI製品エキスパート",
                "生成AIや関連製品、技術に関する専門的な質問に答える",
                "生成AIや関連製品、技術に関する専門的な質問に対して、最新の情報と深い洞察を提供してください。"),
    "3" := Role("カウンセラー",
                "個人の悩みや心理的な問題に対してサポートを提供する",
                "個人の悩みや心理的な問題に対して、共感的で支援的な回答を提供し、可能であれば適切なアドバイスも行ってください。")
  ]

  /** The key order lists each key of the table exactly once. */
  lemma RoleKeysAreTheTable()
    ensures |RoleKeys| == 3 && RoleKeys[0] != RoleKeys[1] && RoleKeys[0] != RoleKeys[2] && RoleKeys[1] != RoleKeys[2]
    ensures forall key :: key in Roles <==> key in RoleKeys
  {
  }

  /** `f"{k}.{v['name']}:{v['description']}"`. */
  function OptionLine(key: string): string
    requires key in Roles
  {
    key + "." + Roles[key].name + ":" + Roles[key].description
  }

  /** `f"-{v['name']}:{v['details']}"`. */
  function DetailLine(key: string): string
    requires key in Roles
  {
    "-" + Roles[key].name + ":" + Roles[key].details
  }

  function OptionLines(): (r: seq<string>)
    ensures |r| == |RoleKeys| && forall i :: 0 <= i < |r| ==> r[i] == OptionLine(RoleKeys[i])
  {
    [OptionLine("1"), OptionLine("2"), OptionLine("3")]
  }

  function DetailLines(): (r: seq<string>)
    ensures |r| == |RoleKeys| && forall i :: 0 <= i < |r| ==> r[i] == DetailLine(RoleKeys[i])
  {
    [DetailLine("1"), DetailLine("2"), DetailLine("3")]
  }

  /** `role_options`: the option lines joined by newlines. */
  function RoleOptions(): string {
    Join("\n", OptionLines())
  }

  /** `role_details`: the detail lines joined by newlines. */
  function RoleDetails(): string {
    Join("\n", DetailLines())
  }

  /** The option text lists each role once, in table order, as
      "key.name:description", one line per role; the detail text likewise lists
      "-name:details". */
  lemma RoleTextsLayout()
    ensures RoleOptions() == OptionLine("1") + "\n" + OptionLine("2") + "\n" + OptionLine("3")
    ensures RoleDetails() == DetailLine("1") + "\n" + DetailLine("2") + "\n" + DetailLine("3")
  {
    var o := OptionLines();
    assert o[..2] == [OptionLine("1"), OptionLine("2")] && o[..2][..1] == [OptionLine("1")];
    var d := DetailLines();
    assert d[..2] == [DetailLine("1"), DetailLine("2")] && d[..2][..1] == [DetailLine("1")];
  }

  // ---------------------------------------------------------------------------
  // State and node updates
  // ---------------------------------------------------------------------------

  /** `State`. */
  datatype State = State(query: string, currentRole: string, messages: seq<string>,
                         currentJudge: bool, judgementReason: string)

  /** `State(query=query)`: every other field at its default. */
  function InitialState(query: string): State {
    State(query, "", [], false, "")
  }

  /** `Judgement`, the judge's structured output. */
  datatype Judgement = Judgement(reason: string, judge: bool)

  /** The dict a node returns: only the fields it sets. */
  datatype Update = Update(currentRole: Option<string>, messages: Option<seq<string>>,
                           currentJudge: Option<bool>, judgementReason: Option<string>)

  /** How the graph merges a node's dict into the state: `messages` through
      `operator.add`, every other returned field replaced. */
  function Merge(s: State, u: Update): (r: State)
    ensures r.query == s.query
    ensures r.messages == s.messages + (if u.messages.Some? then u.messages.value else [])
    ensures r.currentRole == (if u.currentRole.Some? then u.currentRole.value else s.currentRole)
    ensures r.currentJudge == (if u.currentJudge.Some? then u.currentJudge.value else s.currentJudge)
    ensures r.judgementReason == (if u.judgementReason.Some? then u.judgementReason.value else s.judgementReason)
  {
    State(s.query,
          if u.currentRole.Some? then u.currentRole.value else s.currentRole,
          if u.messages.Some? then s.messages + u.messages.value else s.messages,
          if u.currentJudge.Some? then u.currentJudge.value else s.currentJudge,
          if u.judgementReason.Some? then u.judgementReason.value else s.judgementReason)
  }

  /** The three model calls, as functions of the round and the prompt inputs:
      the classifier (capped at one token), the role-played answer, and the judge. */
  datatype Llm = Llm(classify: (nat, string, string) -> string,
                     answer: (nat, string, string, string) -> string,
                     judge: (nat, string, string) -> Judgement)

  /** `selection_node`: the classifier's text, stripped, must be a key of the table;
      any other text raises KeyError. Only `current_role` is returned. */
  function SelectionNode(s: State, llm: Llm, round: nat): (r: Result<Update>)
    ensures var key := Strip(llm.classify(round, RoleOptions(), s.query));
            (r.Ok? <==> key in RoleKeys)
            && (r.Ok? ==> r.value == Update(Some(Roles[key].name), None, None, None))
            && (r.Err? ==> r.error == KeyError)
  {
    var roleNumber := llm.classify(round, RoleOptions(), s.query);
    var key := Strip(roleNumber);
    if key in Roles then Ok(Update(Some(Roles[key].name), None, None, None)) else Err(KeyError)
  }

  /** `answering_node`: a one-element `messages` list holding the role-played
      answer, and no other field. */
  function AnsweringNode(s: State, llm: Llm, round: nat): (r: Update)
    ensures r.messages.Some? && |r.messages.value| == 1
    ensures r.messages.value[0] == llm.answer(round, s.currentRole, RoleDetails(), s.query)
    ensures r.currentRole.None? && r.currentJudge.None? && r.judgementReason.None?
  {
    Update(None, Some([llm.answer(round, s.currentRole, RoleDetails(), s.query)]), None, None)
  }

  /** `check_node`: judges the last message; with no messages `messages[-1]` raises
      IndexError. Both judgement fields are returned. */
  function CheckNode(s: State, llm: Llm, round: nat): (r: Result<Update>)
    ensures r.Err? <==> s.messages == []
    ensures r.Err? ==> r.error == IndexError
    ensures r.Ok? ==>
              var j := llm.judge(round, s.query, s.messages[|s.messages| - 1]);
              r.value == Update(None, None, Some(j.judge), Some(j.reason))
  {
    if |s.messages| == 0 then Err(IndexError)
    else
      var result := llm.judge(round, s.query, s.messages[|s.messages| - 1]);
      Ok(Update(None, None, Some(result.judge), Some(result.reason)))
  }

  /** Selection changes the role and nothing else. */
  lemma SelectionOnlySetsRole(s: State, llm: Llm, round: nat)
    requires SelectionNode(s, llm, round).Ok?
    ensures var t := Merge(s, SelectionNode(s, llm, round).value);
            t == s.(currentRole := t.currentRole) && t.currentRole in RoleNames()
  {
    var key := Strip(llm.classify(round, RoleOptions(), s.query));
    assert Roles[key].name in RoleNames();
  }

  function RoleNames(): set<string> {
    set key | key in Roles :: Roles[key].name
  }

  /** Answering appends exactly one message and keeps the earlier ones in order. */
  lemma AnsweringAppendsOne(s: State, llm: Llm, round: nat)
    ensures var t := Merge(s, AnsweringNode(s, llm, round));
            |t.messages| == |s.messages| + 1 && t.messages[..|s.messages|] == s.messages
            && t == s.(messages := t.messages)
  {
    var t := Merge(s, AnsweringNode(s, llm, round));
    assert t.messages[..|s.messages|] == s.messages;
  }

  /** Check overwrites both judgement fields with the judge's verdict on the last
      message, whatever they held before. */
  lemma CheckOverwritesJudgement(s: State, llm: Llm, round: nat)
    requires s.messages != []
    ensures var t := Merge(s, CheckNode(s, llm, round).value);
            var j := llm.judge(round, s.query, s.messages[|s.messages| - 1]);
            t == s.(currentJudge := j.judge, judgementReason := j.reason)
  {
  }

  lemma StripExamples()
    ensures Strip(" 2\n") == "2" && Strip("4") == "4"
  {
  }

  /** A surrounding-whitespace answer such as " 2\n" selects role 2. */
  lemma SelectionStripsAnswer(s: State, llm: Llm, round: nat)
    requires llm.classify(round, RoleOptions(), s.query) == " 2\n"
    ensures SelectionNode(s, llm, round) == Ok(Update(Some("生成AI製品エキスパート"), None, None, None))
  {
    var out := llm.classify(round, RoleOptions(), s.query);
    assert Strip(out) == "2" by { StripExamples(); }
    SelectionOnStripped(s, llm, round, "2");
  }

  /** A key outside the table, such as "4", raises KeyError; there is no default. */
  lemma SelectionRejectsUnknownKey(s: State, llm: Llm, round: nat)
    requires llm.classify(round, RoleOptions(), s.query) == "4"
    ensures SelectionNode(s, llm, round) == Err(KeyError)
  {
    var out := llm.classify(round, RoleOptions(), s.query);
    assert Strip(out) == "4" by { StripExamples(); }
    SelectionOnStripped(s, llm, round, "4");
  }

  lemma SelectionOnStripped(s: State, llm: Llm, round: nat, key: string)
    requires Strip(llm.classify(round, RoleOptions(), s.query)) == key
    ensures key == "2" ==> SelectionNode(s, llm, round) == Ok(Update(Some("生成AI製品エキスパート"), None, None, None))
    ensures key == "4" ==> SelectionNode(s, llm, round) == Err(KeyError)
  {
  }

  // ---------------------------------------------------------------------------
  // The graph
  // ---------------------------------------------------------------------------

  datatype Node = Selection | Answering | Check | End

  /** A point of the run: the next node, the state, and the number of completed
      rounds (a round is selection, answering and check). */
  datatype Config = Config(node: Node, state: State, round: nat)

  /** The edges: selection to answering, answering to check, and from check to END
      when `current_judge` holds, otherwise back to selection. */
  function Successor(n: Node, s: State): (r: Node)
    requires n != End
    ensures r != n
    ensures r == End <==> n == Check && s.currentJudge
    ensures r == Selection <==> n == Check && !s.currentJudge
    ensures n == Selection <==> r == Answering
  {
    match n
    case Selection => Answering
    case Answering => Check
    case Check => if s.currentJudge then End else Selection
  }

  /** Run the current node, merge its update, and follow the edge. */
  function Step(c: Config, llm: Llm): (r: Result<Config>)
    requires c.node != End
    ensures r.Ok? ==> r.value.node == Successor(c.node, r.value.state)
    ensures r.Ok? ==> r.value.state.query == c.state.query
    ensures r.Ok? ==> r.value.round == (if c.node == Check then c.round + 1 else c.round)
  {
    match c.node
    case Selection =>
      var u :- SelectionNode(c.state, llm, c.round);
      var s := Merge(c.state, u);
      Ok(Config(Successor(Selection, s), s, c.round))
    case Answering =>
      var s := Merge(c.state, AnsweringNode(c.state, llm, c.round));
      Ok(Config(Successor(Answering, s), s, c.round))
    case Check =>
      var u :- CheckNode(c.state, llm, c.round);
      var s := Merge(c.state, u);
      Ok(Config(Successor(Check, s), s, c.round + 1))
  }

  datatype Outcome = Finished(state: State) | OutOfFuel(config: Config) | Failed(error: PyError)

  /** The run, with `fuel` bounding the number of node executions. It ends at
      END (where the state is returned), at a raised error, or when the fuel is
      used up short of END; the question is never changed, and a run that had
      to execute a node finished only on a passing judgement. */
  function Run(c: Config, llm: Llm, fuel: nat): (r: Outcome)
    ensures c.node == End ==> r == Finished(c.state)
    ensures r.Finished? ==> r.state.query == c.state.query && (c.node == End || r.state.currentJudge)
    ensures r.OutOfFuel? ==> r.config.node != End && r.config.state.query == c.state.query
    decreases fuel, 1
  {
    if c.node == End then Finished(c.state)
    else if fuel == 0 then OutOfFuel(c)
    else Continue(Step(c, llm), llm, fuel - 1)
  }

  /** The rest of the run after a node execution: its error, or the run onwards. */
  function Continue(r: Result<Config>, llm: Llm, fuel: nat): (o: Outcome)
    ensures r.Err? ==> o == Failed(r.error)
    ensures r.Ok? && r.value.node == End ==> o == Finished(r.value.state)
    ensures r.Ok? && o.Finished? ==>
              o.state.query == r.value.state.query && (r.value.node == End || o.state.currentJudge)
    ensures r.Ok? && o.OutOfFuel? ==> o.config.node != End && o.config.state.query == r.value.state.query
    decreases fuel + 1, 0
  {
    match r
    case Err(e) => Failed(e)
    case Ok(next) => Run(next, llm, fuel)
  }

  /** `compiled.invoke(State(query=query))` starts at selection in round 0. */
  function Start(query: string): Config {
    Config(Selection, InitialState(query), 0)
  }

  /** What holds at every point of a run from `Start`: one message per completed
      round (plus the pending answer while at check). */
  predicate Inv(c: Config) {
    match c.node
    case Selection => |c.state.messages| == c.round
    case Answering => |c.state.messages| == c.round
    case Check => |c.state.messages| == c.round + 1
    case End => |c.state.messages| == c.round && c.state.currentJudge
  }

  lemma StepPreservesInv(c: Config, llm: Llm)
    requires c.node != End && Inv(c) && Step(c, llm).Ok?
    ensures Inv(Step(c, llm).value)
    ensures Step(c, llm).value.state.messages[..|c.state.messages|] == c.state.messages
  {
    var next := Step(c, llm).value;
    assert next.state.messages[..|c.state.messages|] == c.state.messages;
  }

  /** Within a run, check is never reached without an answer, so the only failure
      is the classifier's unknown key. */
  lemma {:induction false} RunFailsOnlyOnUnknownRole(c: Config, llm: Llm, fuel: nat)
    requires Inv(c)
    ensures Run(c, llm, fuel).Failed? ==> Run(c, llm, fuel).error == KeyError
    decreases fuel
  {
    if c.node != End && fuel > 0 && Step(c, llm).Ok? {
      StepPreservesInv(c, llm);
      RunStep(c, llm, fuel);
      RunFailsOnlyOnUnknownRole(Step(c, llm).value, llm, fuel - 1);
    }
  }

  /** A finished run ended on a passing judgement, kept the question, and lost none
      of the earlier messages. */
  lemma {:induction false} RunFinishesOnPass(c: Config, llm: Llm, fuel: nat)
    requires Inv(c)
    ensures Run(c, llm, fuel).Finished? ==>
              Run(c, llm, fuel).state.currentJudge
              && |Run(c, llm, fuel).state.messages| >= |c.state.messages|
              && Run(c, llm, fuel).state.messages[..|c.state.messages|] == c.state.messages
              && Run(c, llm, fuel).state.query == c.state.query
    decreases fuel
  {
    if c.node != End && fuel > 0 && Step(c, llm).Ok? {
      var next := Step(c, llm).value;
      StepPreservesInv(c, llm);
      RunStep(c, llm, fuel);
      RunFinishesOnPass(next, llm, fuel - 1);
      var out := Run(c, llm, fuel);
      var m := c.state.messages;
      var m1 := next.state.messages;
      if out.Finished? {
        assert out == Run(next, llm, fuel - 1);
        assert out.state.messages[..|m1|] == m1;
        assert out.state.messages[..|m|] == m1[..|m|];
      }
    }
  }

  /** A run cut short by the fuel bound stops at a point where the invariant holds. */
  lemma {:induction false} RunOutOfFuelKeepsInv(c: Config, llm: Llm, fuel: nat)
    requires Inv(c)
    ensures Run(c, llm, fuel).OutOfFuel? ==> Inv(Run(c, llm, fuel).config)
    decreases fuel
  {
    if c.node != End && fuel > 0 && Step(c, llm).Ok? {
      StepPreservesInv(c, llm);
      RunStep(c, llm, fuel);
      RunOutOfFuelKeepsInv(Step(c, llm).value, llm, fuel - 1);
    }
  }

  /** Extra fuel changes nothing once the run has finished or failed. */
  lemma {:induction false} RunFuelMonotone(c: Config, llm: Llm, fuel: nat, more: nat)
    requires !Run(c, llm, fuel).OutOfFuel?
    requires fuel <= more
    ensures Run(c, llm, more) == Run(c, llm, fuel)
    decreases fuel
  {
    if c.node != End && fuel > 0 {
      var r := Step(c, llm);
      if r.Ok? {
        RunStep(c, llm, fuel);
        RunStep(c, llm, more);
        RunFuelMonotone(r.value, llm, fuel - 1, more - 1);
      }
    }
  }

  /** The classifier always answers one of the table's keys (up to whitespace). */
  ghost predicate ValidClassifier(llm: Llm) {
    forall r: nat, options: string, query: string :: Strip(llm.classify(r, options, query)) in RoleKeys
  }

  /** The judge passes the answer of round `n` and fails every earlier one. */
  ghost predicate FirstPassAt(llm: Llm, n: nat) {
    forall r: nat, query: string, answer: string :: llm.judge(r, query, answer).judge <==> r == n
  }

  /** The node executions left before END when the judge first passes in round `n`:
      three per round still to come, counting the current one from its node. */
  function StepsLeft(c: Config, n: nat): int {
    match c.node
    case Selection => 3 * (n - c.round) + 3
    case Answering => 3 * (n - c.round) + 2
    case Check => 3 * (n - c.round) + 1
    case End => 0
  }

  /** The run stops at the first passing judgement: with a valid classifier and a
      judge that first passes in round `n`, a run at any point of round `r <= n`
      finishes after exactly `StepsLeft` node executions, with one answer per
      round. */
  lemma {:induction false} StopsAtFirstPass(c: Config, llm: Llm, n: nat, fuel: nat)
    requires Inv(c) && ValidClassifier(llm) && FirstPassAt(llm, n)
    requires if c.node == End then c.round == n + 1 else c.round <= n
    requires fuel == StepsLeft(c, n)
    ensures Run(c, llm, fuel).Finished?
    ensures |Run(c, llm, fuel).state.messages| == n + 1
    decreases fuel
  {
    if c.node != End {
      FirstPassStep(c, llm, n);
      RunStep(c, llm, fuel);
      StopsAtFirstPass(Step(c, llm).value, llm, n, fuel - 1);
    }
  }

  /** With a judge that first passes in round `n`, any budget smaller than
      `StepsLeft` runs out of fuel: the run takes exactly that many node
      executions. */
  lemma {:induction false} FinishesNoSooner(c: Config, llm: Llm, n: nat, fuel: nat)
    requires Inv(c) && ValidClassifier(llm) && FirstPassAt(llm, n)
    requires if c.node == End then c.round == n + 1 else c.round <= n
    requires fuel < StepsLeft(c, n)
    ensures Run(c, llm, fuel).OutOfFuel?
    decreases fuel
  {
    if c.node != End && fuel > 0 {
      FirstPassStep(c, llm, n);
      RunStep(c, llm, fuel);
      FinishesNoSooner(Step(c, llm).value, llm, n, fuel - 1);
    }
  }

  /** One node execution towards the first pass: it succeeds, keeps `Inv`, and
      uses up one of the steps left. */
  lemma FirstPassStep(c: Config, llm: Llm, n: nat)
    requires c.node != End && Inv(c) && ValidClassifier(llm) && FirstPassAt(llm, n)
    requires c.round <= n
    ensures Step(c, llm).Ok?
    ensures var next := Step(c, llm).value;
            Inv(next) && (if next.node == End then next.round == n + 1 else next.round <= n)
            && StepsLeft(next, n) == StepsLeft(c, n) - 1
  {
    assert Step(c, llm).Ok?;
    StepPreservesInv(c, llm);
    if c.node == Check {
      var m := c.state.messages;
      assert llm.judge(c.round, c.state.query, m[|m| - 1]).judge <==> c.round == n;
    }
  }

  /** One node execution of a run. */
  lemma RunStep(c: Config, llm: Llm, fuel: nat)
    requires c.node != End && fuel > 0 && Step(c, llm).Ok?
    ensures Run(c, llm, fuel) == Run(Step(c, llm).value, llm, fuel - 1)
  {
  }

  /** A judge that never passes never lets the run finish, whatever the fuel: each
      check leads back to selection. */
  lemma {:induction false} NeverPassNeverFinishes(c: Config, llm: Llm, fuel: nat)
    requires c.node != End
    requires forall r: nat, query: string, answer: string :: !llm.judge(r, query, answer).judge
    ensures !Run(c, llm, fuel).Finished?
    decreases fuel
  {
    if fuel > 0 && Step(c, llm).Ok? {
      NeverPassStep(c, llm);
      RunStep(c, llm, fuel);
      NeverPassNeverFinishes(Step(c, llm).value, llm, fuel - 1);
    }
  }

  lemma NeverPassStep(c: Config, llm: Llm)
    requires c.node != End && Step(c, llm).Ok?
    requires forall r: nat, query: string, answer: string :: !llm.judge(r, query, answer).judge
    ensures Step(c, llm).value.node != End
  {
    if c.node == Check {
      var m := c.state.messages;
      assert !llm.judge(c.round, c.state.query, m[|m| - 1]).judge;
    }
  }

  /** From the start: the judge passing in round `n` gives a finished run with
      exactly `n + 1` answers, and no fuel beyond that changes the result. */
  lemma FirstPassFromStart(query: string, llm: Llm, n: nat, fuel: nat)
    requires ValidClassifier(llm) && FirstPassAt(llm, n)
    requires fuel >= 3 * (n + 1)
    ensures Run(Start(query), llm, fuel).Finished?
    ensures |Run(Start(query), llm, fuel).state.messages| == n + 1
    ensures Run(Start(query), llm, fuel).state.currentJudge
  {
    StopsAtFirstPass(Start(query), llm, n, 3 * n + 3);
    RunFuelMonotone(Start(query), llm, 3 * n + 3, fuel);
    RunFinishesOnPass(Start(query), llm, fuel);
  }

  // ---------------------------------------------------------------------------
  // The compiled graph, run step by step
  // ---------------------------------------------------------------------------

  /** The graph runtime's current point: the next node, the state it carries, and
      the round. */
  class GraphRun {
    var node: Node
    var state: State
    var round: nat

    /** `compiled.invoke(State(query=query))` before the first node runs. */
    constructor (query: string)
      ensures node == Selection && state == InitialState(query) && round == 0
    {
      node := Selection;
      state := InitialState(query);
      round := 0;
    }

    function Current(): Config
      reads this
    {
      Config(node, state, round)
    }

    /** Execute nodes until END, a raised error, or `fuel` executions. */
    method Invoke(llm: Llm, fuel: nat) returns (outcome: Outcome)
      modifies this
      ensures outcome == Run(old(Current()), llm, fuel)
      ensures outcome.Finished? ==> node == End && state == outcome.state
      ensures outcome.OutOfFuel? ==> Current() == outcome.config
    {
      var remaining: nat := fuel;
      while node != End && remaining > 0
        invariant remaining <= fuel
        invariant Run(Current(), llm, remaining) == Run(old(Current()), llm, fuel)
        decreases remaining
      {
        var next := Step(Current(), llm);
        if next.Err? {
          return Failed(next.error);
        }
        node, state, round := next.value.node, next.value.state, next.value.round;
        remaining := remaining - 1;
      }
      if node == End {
        outcome := Finished(state);
      } else {
        outcome := OutOfFuel(Current());
      }
    }
  }
}
