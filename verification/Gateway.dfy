/** The gateway, one call at a time: the chain is the cache, and what it answers is what the provider
    would have answered. */
module Gateway {
  import opened Utf16
  import opened Values
  import opened Grammar
  import opened Chain
  import opened Wires
  import opened Money
  import Budget

  datatype Reply = Reply(model: Str, text: Str, tokensIn: nat, tokensOut: nat)

  /** An `agent_call` row, with the columns the lookup and the sum read. */
  datatype CallRow = CallRow(run: Str, org: Str, seqNo: nat, probe: Probe, modelReturned: Str, response: Str,
                             responseHash: Str, tokensIn: nat, tokensOut: nat, cost: nat, hit: bool,
                             sourceSeq: Option<nat>)

  /** What one process is configured with. `clean` is the search of a response and `mayLeave` the search
      of a payload, each a fixed verdict on what it is given. */
  datatype Config = Config(digest: Digest, stateHash: Str, run: Str, replay: bool, cache: bool, cut: nat,
                           perRun: bool, prices: map<Str, Price>, clean: (Request, Str) -> bool,
                           mayLeave: Request -> bool)

  type Provider = Wire -> Reply

  /** What this call meets outside: whether the provider answers, fails or is too slow, and whether the
      row can be written. */
  datatype Far = Up | Down | Slow

  datatype Weather = Weather(far: Far, writable: bool)

  datatype Reason =
    | PriceUnknown | NotClean | ReplayMiss | Exhausted | Egress
    | ProviderFailed | ProviderTimeout | WriteFailed | ModelUnexpected

  datatype Result = Returned(text: Str, model: Str, cached: bool, cost: nat) | Raised(why: Reason)

  const MAX_TOKENS := Name("max_tokens")

  function AllowanceOf(sampling: Json): nat {
    if sampling.Obj? && MAX_TOKENS in sampling.members && sampling.members[MAX_TOKENS].Num?
       && sampling.members[MAX_TOKENS].number >= 0
    then sampling.members[MAX_TOKENS].number else 0
  }

  function Projection(r: Request, p: Price): nat {
    ProjectedMicro(|r.promptText|, |WireOf(r).user|, AllowanceOf(r.sampling), p.inputPer1k, p.outputPer1k)
  }

  // ----- the lookup and the sum -----

  /** A call that happened and answers this probe for this organisation. */
  predicate Source(row: CallRow, org: Str, probe: Probe) { !row.hit && row.org == org && row.probe == probe }

  /** `order by id asc limit 1`: the earliest. */
  function FindCached(rows: seq<CallRow>, org: Str, probe: Probe): (at: Option<nat>)
    ensures at.Some? ==> at.value < |rows| && Source(rows[at.value], org, probe)
    ensures at.Some? ==> forall j :: 0 <= j < at.value ==> !Source(rows[j], org, probe)
    ensures at.None? ==> forall j :: 0 <= j < |rows| ==> !Source(rows[j], org, probe)
  {
    if rows == [] then None
    else
      var n := |rows| - 1;
      var before := FindCached(rows[..n], org, probe);
      if before.Some? then before else if Source(rows[n], org, probe) then Some(n) else None
  }

  /** What a row adds to the sum an organisation's ceiling is read from. */
  function Counts(row: CallRow, org: Str, run: Str, perRun: bool): nat {
    if row.org == org && (perRun ==> row.run == run) then row.cost else 0
  }

  function Spent(rows: seq<CallRow>, org: Str, run: Str, perRun: bool): nat {
    if rows == [] then 0
    else Spent(rows[..|rows| - 1], org, run, perRun) + Counts(rows[|rows| - 1], org, run, perRun)
  }

  lemma SpentAppend(rows: seq<CallRow>, row: CallRow, org: Str, run: Str, perRun: bool)
    ensures Spent(rows + [row], org, run, perRun) == Spent(rows, org, run, perRun) + Counts(row, org, run, perRun)
  {
    assert (rows + [row])[..|rows|] == rows;
  }

  // ----- the rows it writes -----

  function HitRow(c: Config, r: Request, probe: Probe, source: CallRow, seqNo: nat): CallRow {
    CallRow(c.run, r.org, seqNo, probe, source.modelReturned, source.response, source.responseHash, 0, 0, 0, true,
            Some(source.seqNo))
  }

  function RealRow(c: Config, r: Request, probe: Probe, reply: Reply, cost: nat, seqNo: nat): CallRow {
    CallRow(c.run, r.org, seqNo, probe, reply.model, reply.text, c.digest(reply.text), reply.tokensIn, reply.tokensOut,
            cost, false, None)
  }

  function NextSeq(rows: seq<CallRow>, run: Str): nat {
    if rows == [] then 1
    else if rows[|rows| - 1].run == run then rows[|rows| - 1].seqNo + 1
    else NextSeq(rows[..|rows| - 1], run)
  }

  // ----- what every row keeps -----

  /** What the provider's answer is priced at. */
  ghost function Cost(provider: Provider, r: Request, p: Price): nat {
    ActualMicro(provider(WireOf(r)).tokensIn, provider(WireOf(r)).tokensOut, p.inputPer1k, p.outputPer1k)
  }

  /** A row of a call that reached the provider: the provider's own answer, priced. */
  ghost predicate IsReal(c: Config, provider: Provider, row: CallRow, r: Request) {
    var reply := provider(WireOf(r));
    && !row.hit && row.response == reply.text && row.modelReturned == reply.model
    && row.tokensIn == reply.tokensIn && row.tokensOut == reply.tokensOut
    && r.model in c.prices
    && row.cost == Cost(provider, r, c.prices[r.model])
  }

  /** A row answered from the chain: free, and pointing at an earlier row of a call that happened, with
      the same probe and the same response. */
  ghost predicate IsHit(rows: seq<CallRow>, i: nat)
    requires i < |rows|
  {
    var row := rows[i];
    && row.hit && row.tokensIn == 0 && row.tokensOut == 0 && row.cost == 0
    && exists j :: 0 <= j < i && Copies(row, rows[j])
  }

  predicate Copies(row: CallRow, source: CallRow) {
    && Source(source, row.org, row.probe) && row.sourceSeq == Some(source.seqNo)
    && row.response == source.response && row.responseHash == source.responseHash
    && row.modelReturned == source.modelReturned
  }

  /** Row `i` was written for call `asked[i]`. */
  ghost predicate Written(c: Config, provider: Provider, rows: seq<CallRow>, asked: seq<Request>, i: nat)
    requires i < |rows| == |asked|
  {
    && rows[i].org == asked[i].org && rows[i].probe == ProbeOf(c.digest, c.stateHash, asked[i])
    && rows[i].responseHash == c.digest(rows[i].response)
    && (IsReal(c, provider, rows[i], asked[i]) || IsHit(rows, i))
  }

  ghost predicate Honest(c: Config, provider: Provider, rows: seq<CallRow>, asked: seq<Request>) {
    && |asked| == |rows|
    && forall i {:trigger Written(c, provider, rows, asked, i)} :: 0 <= i < |rows| ==>
       Written(c, provider, rows, asked, i)
  }

  lemma HonestAppend(c: Config, provider: Provider, rows: seq<CallRow>, asked: seq<Request>, row: CallRow, r: Request)
    requires Honest(c, provider, rows, asked)
    requires row.org == r.org && row.probe == ProbeOf(c.digest, c.stateHash, r)
    requires row.responseHash == c.digest(row.response)
    requires IsReal(c, provider, row, r) ||
             (row.hit && row.tokensIn == 0 && row.tokensOut == 0 && row.cost == 0
              && exists j :: 0 <= j < |rows| && Copies(row, rows[j]))
    ensures Honest(c, provider, rows + [row], asked + [r])
  {
    var more, ask := rows + [row], asked + [r];
    forall i | 0 <= i < |more| ensures Written(c, provider, more, ask, i) {
      if i < |rows| {
        assert Written(c, provider, rows, asked, i);
        if IsHit(rows, i) {
          var j :| 0 <= j < i && Copies(rows[i], rows[j]);
          assert Copies(more[i], more[j]);
        }
      } else if !IsReal(c, provider, row, r) {
        var j :| 0 <= j < |rows| && Copies(row, rows[j]);
        assert Copies(more[i], more[j]);
      }
    }
  }

  lemma HitIsHonest(c: Config, provider: Provider, rows: seq<CallRow>, asked: seq<Request>, r: Request, at: nat,
                    seqNo: nat)
    requires Honest(c, provider, rows, asked) && at < |rows|
    requires Source(rows[at], r.org, ProbeOf(c.digest, c.stateHash, r))
    ensures Honest(c, provider, rows + [HitRow(c, r, ProbeOf(c.digest, c.stateHash, r), rows[at], seqNo)], asked + [r])
  {
    var row := HitRow(c, r, ProbeOf(c.digest, c.stateHash, r), rows[at], seqNo);
    assert Written(c, provider, rows, asked, at);
    assert Copies(row, rows[at]);
    HonestAppend(c, provider, rows, asked, row, r);
  }

  /** What the chain answers is what the provider would: the probes agree, so the requests do. */
  lemma CachedIsDirect(c: Config, provider: Provider, rows: seq<CallRow>, asked: seq<Request>, r: Request, at: nat)
    requires Honest(c, provider, rows, asked) && at < |rows|
    requires Source(rows[at], r.org, ProbeOf(c.digest, c.stateHash, r))
    ensures var reply := provider(WireOf(r));
      (rows[at].response == reply.text && rows[at].modelReturned == reply.model) || SomeConfusion(c.digest, r, asked)
  {
    assert Written(c, provider, rows, asked, at);
    ProbeDeterminesWire(c.digest, c.stateHash, r, asked[at]);
    if Confused(c.digest, r, asked[at]) { assert SomeConfusion(c.digest, r, asked); }
  }

  // ----- what a call comes to -----

  /** The provider answered, the answer may be kept, and the table took it. */
  ghost predicate Lands(c: Config, provider: Provider, r: Request, weather: Weather) {
    weather.far.Up? && c.clean(r, provider(WireOf(r)).text) && weather.writable
  }

  ghost function Paid(c: Config, provider: Provider, r: Request, p: Price, seqNo: nat): CallRow {
    RealRow(c, r, ProbeOf(c.digest, c.stateHash, r), provider(WireOf(r)), Cost(provider, r, p), seqNo)
  }

  ghost function AskOutcome(c: Config, provider: Provider, r: Request, p: Price, weather: Weather): Result {
    var reply := provider(WireOf(r));
    match weather.far
    case Down => Raised(ProviderFailed)
    case Slow => Raised(ProviderTimeout)
    case Up =>
      if !c.clean(r, reply.text) then Raised(NotClean)
      else if !weather.writable then Raised(WriteFailed)
      else if r.pinned && reply.model != r.model then Raised(ModelUnexpected)
      else Returned(reply.text, reply.model, false, Cost(provider, r, p))
  }

  ghost function HitOutcome(c: Config, r: Request, source: CallRow, weather: Weather): Result {
    if !c.clean(r, source.response) then Raised(NotClean)
    else if !weather.writable then Raised(WriteFailed)
    else Returned(source.response, source.modelReturned, true, 0)
  }

  ghost predicate Affordable(c: Config, rows: seq<CallRow>, inFlight: nat, r: Request)
    requires r.model in c.prices
  {
    Budget.Admits(Spent(rows, r.org, c.run, c.perRun), inFlight, Projection(r, c.prices[r.model]), c.cut)
  }

  /** What one call comes to, from the table it meets: refused unpriced, answered from the chain if it
      can be, refused in replay, at the ceiling or at the door, and only then asked. */
  ghost function Outcome(c: Config, provider: Provider, rows: seq<CallRow>, inFlight: nat, r: Request, weather: Weather)
    : Result
  {
    var at := FindCached(rows, r.org, ProbeOf(c.digest, c.stateHash, r));
    if r.model !in c.prices then Raised(PriceUnknown)
    else if (c.cache || c.replay) && at.Some? then HitOutcome(c, r, rows[at.value], weather)
    else if c.replay then Raised(ReplayMiss)
    else if !Affordable(c, rows, inFlight, r) then Raised(Exhausted)
    else if !c.mayLeave(r) then Raised(Egress)
    else AskOutcome(c, provider, r, c.prices[r.model], weather)
  }

  // ----- and what it leaves behind -----

  /** One hand-over to the provider: for whom, of which probe, whether its row landed, and what is still
      reserved for it. */
  datatype Send = Send(org: Str, probe: Probe, wire: Wire, landed: bool, held: nat)

  /** The table, the reservations, the calls the rows were written for, and every send. */
  datatype Books = Books(rows: seq<CallRow>, inFlight: nat, asked: seq<Request>, sent: seq<Send>)

  ghost function SendOf(c: Config, provider: Provider, r: Request, p: Price, weather: Weather): Send {
    var landed := Lands(c, provider, r, weather);
    Send(r.org, ProbeOf(c.digest, c.stateHash, r), WireOf(r), landed,
         if landed || weather.far.Down? then 0 else Projection(r, p))
  }

  ghost function AfterHit(c: Config, b: Books, r: Request, at: nat, weather: Weather): Books
    requires at < |b.rows|
  {
    if HitOutcome(c, r, b.rows[at], weather).Raised? then b
    else
      var row := HitRow(c, r, ProbeOf(c.digest, c.stateHash, r), b.rows[at], NextSeq(b.rows, c.run));
      b.(rows := b.rows + [row], asked := b.asked + [r])
  }

  ghost function AfterAsk(c: Config, provider: Provider, b: Books, r: Request, p: Price, weather: Weather): Books {
    var send := SendOf(c, provider, r, p, weather);
    var spent := b.(inFlight := b.inFlight + send.held, sent := b.sent + [send]);
    if !send.landed then spent
    else spent.(rows := b.rows + [Paid(c, provider, r, p, NextSeq(b.rows, c.run))], asked := b.asked + [r])
  }

  /** The provider is asked exactly when the call is priced, unanswered by the chain, no replay,
      affordable and allowed out. */
  ghost predicate Leaves(c: Config, b: Books, r: Request) {
    && r.model in c.prices && !c.replay
    && (c.cache ==> FindCached(b.rows, r.org, ProbeOf(c.digest, c.stateHash, r)).None?)
    && Affordable(c, b.rows, b.inFlight, r) && c.mayLeave(r)
  }

  ghost predicate Answerable(c: Config, b: Books, r: Request) {
    && r.model in c.prices && (c.cache || c.replay)
    && FindCached(b.rows, r.org, ProbeOf(c.digest, c.stateHash, r)).Some?
  }

  ghost function AfterCall(c: Config, provider: Provider, b: Books, r: Request, weather: Weather): Books {
    if Answerable(c, b, r)
    then AfterHit(c, b, r, FindCached(b.rows, r.org, ProbeOf(c.digest, c.stateHash, r)).value, weather)
    else if Leaves(c, b, r) then AfterAsk(c, provider, b, r, c.prices[r.model], weather)
    else b
  }

  ghost predicate SomeConfusion(digest: Digest, r: Request, asked: seq<Request>) {
    exists i {:trigger asked[i]} :: 0 <= i < |asked| && Confused(digest, r, asked[i])
  }

  class Process {
    const c: Config
    var rows: seq<CallRow>
    var inFlight: nat
    ghost var asked: seq<Request>
    ghost var sent: seq<Send>

    constructor (c: Config)
      ensures this.c == c && Shelf() == Books([], 0, [], [])
    {
      this.c := c;
      rows, inFlight, asked, sent := [], 0, [], [];
    }

    ghost function Shelf(): Books
      reads this
    {
      Books(rows, inFlight, asked, sent)
    }

    function ProbeFor(r: Request): Probe { ProbeOf(c.digest, c.stateHash, r) }

    /** The answer the chain already holds, if any and if it may be given to this call. */
    method ServeHit(r: Request, at: nat, weather: Weather) returns (result: Result)
      requires at < |rows|
      modifies this`rows, this`asked
      ensures result == HitOutcome(c, r, old(rows)[at], weather)
      ensures Shelf() == AfterHit(c, old(Shelf()), r, at, weather)
    {
      if !c.clean(r, rows[at].response) { return Raised(NotClean); }
      if !weather.writable { return Raised(WriteFailed); }
      var row := HitRow(c, r, ProbeFor(r), rows[at], NextSeq(rows, c.run));
      rows := rows + [row];
      asked := asked + [r];
      return Returned(row.response, row.modelReturned, true, 0);
    }

    /** The call itself, admitted and about to leave. The reservation comes back when the provider
        failed, or when the row is in the chain, and in no other case. */
    method AskProvider(provider: Provider, r: Request, p: Price, weather: Weather) returns (result: Result)
      modifies this
      ensures result == AskOutcome(c, provider, r, p, weather)
      ensures Shelf() == AfterAsk(c, provider, old(Shelf()), r, p, weather)
    {
      var call := Projection(r, p);
      inFlight := inFlight + call;
      sent := sent + [SendOf(c, provider, r, p, weather)];
      if weather.far.Down? {
        inFlight := inFlight - call;
        return Raised(ProviderFailed);
      }
      if weather.far.Slow? { return Raised(ProviderTimeout); }
      var reply := provider(WireOf(r));
      if !c.clean(r, reply.text) { return Raised(NotClean); }
      if !weather.writable { return Raised(WriteFailed); }
      var cost := ActualMicro(reply.tokensIn, reply.tokensOut, p.inputPer1k, p.outputPer1k);
      var row := RealRow(c, r, ProbeFor(r), reply, cost, NextSeq(rows, c.run));
      rows := rows + [row];
      asked := asked + [r];
      inFlight := inFlight - call;
      if r.pinned && reply.model != r.model { return Raised(ModelUnexpected); }
      return Returned(reply.text, reply.model, false, cost);
    }

    /** One call, from the lookup on. */
    method Run(provider: Provider, r: Request, weather: Weather) returns (result: Result)
      modifies this
      ensures result == Outcome(c, provider, old(rows), old(inFlight), r, weather)
      ensures Shelf() == AfterCall(c, provider, old(Shelf()), r, weather)
    {
      if r.model !in c.prices { return Raised(PriceUnknown); }
      if c.replay || c.cache {
        var hit := FindCached(rows, r.org, ProbeFor(r));
        if hit.Some? {
          result := ServeHit(r, hit.value, weather);
          return;
        }
      }
      if c.replay { return Raised(ReplayMiss); }
      var spent := Spent(rows, r.org, c.run, c.perRun);
      var p := c.prices[r.model];
      if !Budget.Admits(spent, inFlight, Projection(r, p), c.cut) { return Raised(Exhausted); }
      if !c.mayLeave(r) { return Raised(Egress); }
      result := AskProvider(provider, r, p, weather);
    }
  }
}
