/** What one process leaves behind over any sequence of calls, each finished before the next: what was
    sent, what is still reserved, and what a set of calls that was asked about beforehand comes to. */
module Sessions {
  import opened Utf16
  import opened Values
  import opened Money
  import opened Wires
  import opened Gateway
  import A = Admission
  import Budget

  /** A call of this process with what it meets, or a row of another writer with the call it was for. */
  datatype Event = Call(request: Request, weather: Weather) | Arrival(request: Request, row: CallRow)

  /** Other writers are held to write what this process would: a row that is not honest does not arrive. */
  ghost function After(c: Config, provider: Provider, b: Books, e: Event): Books {
    match e
    case Call(r, weather) => AfterCall(c, provider, b, r, weather)
    case Arrival(r, row) =>
      if Honest(c, provider, b.rows + [row], b.asked + [r]) then b.(rows := b.rows + [row], asked := b.asked + [r])
      else b
  }

  ghost function Later(c: Config, provider: Provider, b: Books, events: seq<Event>): Books {
    if events == [] then b
    else After(c, provider, Later(c, provider, b, events[..|events| - 1]), events[|events| - 1])
  }

  /** A process that has just started: nothing reserved, nothing sent, whatever the table holds. */
  predicate Started(b: Books) { b.inFlight == 0 && b.sent == [] }

  // ----- what every session keeps -----

  function Held(sent: seq<Send>): nat {
    if sent == [] then 0 else Held(sent[..|sent| - 1]) + sent[|sent| - 1].held
  }

  predicate Same(a: Send, b: Send) { a.org == b.org && a.probe == b.probe }

  /** A probe is sent again only while no send of it has landed. */
  ghost predicate AgainOnlyUnlanded(sent: seq<Send>) {
    forall i, j :: 0 <= i < j < |sent| && Same(sent[i], sent[j]) ==> !sent[i].landed
  }

  ghost predicate LandedIsKnown(b: Books) {
    forall i :: 0 <= i < |b.sent| && b.sent[i].landed ==> FindCached(b.rows, b.sent[i].org, b.sent[i].probe).Some?
  }

  ghost predicate Kept(c: Config, provider: Provider, b: Books) {
    && Honest(c, provider, b.rows, b.asked)
    && b.inFlight == Held(b.sent)
    && (c.replay ==> b.sent == [])
    && (c.cache ==> AgainOnlyUnlanded(b.sent) && LandedIsKnown(b))
  }

  lemma StaysKnown(rows: seq<CallRow>, row: CallRow, org: Str, probe: Probe)
    ensures FindCached(rows + [row], org, probe).Some?
        <==> FindCached(rows, org, probe).Some? || Source(row, org, probe)
  {
    assert (rows + [row])[..|rows|] == rows;
  }

  lemma RowKeepsKnown(b: Books, row: CallRow)
    requires LandedIsKnown(b)
    ensures LandedIsKnown(b.(rows := b.rows + [row]))
  {
    forall i | 0 <= i < |b.sent| && b.sent[i].landed
      ensures FindCached(b.rows + [row], b.sent[i].org, b.sent[i].probe).Some?
    {
      StaysKnown(b.rows, row, b.sent[i].org, b.sent[i].probe);
    }
  }

  lemma HitKeeps(c: Config, provider: Provider, b: Books, r: Request, weather: Weather)
    requires Kept(c, provider, b) && Answerable(c, b, r)
    ensures Kept(c, provider, AfterCall(c, provider, b, r, weather))
  {
    var probe := ProbeOf(c.digest, c.stateHash, r);
    var at := FindCached(b.rows, r.org, probe).value;
    HitIsHonest(c, provider, b.rows, b.asked, r, at, NextSeq(b.rows, c.run));
    if c.cache { RowKeepsKnown(b, HitRow(c, r, probe, b.rows[at], NextSeq(b.rows, c.run))); }
  }

  lemma SendKeepsHonest(c: Config, provider: Provider, b: Books, r: Request, weather: Weather)
    requires Honest(c, provider, b.rows, b.asked) && r.model in c.prices
    ensures var t := AfterAsk(c, provider, b, r, c.prices[r.model], weather); Honest(c, provider, t.rows, t.asked)
  {
    var row := Paid(c, provider, r, c.prices[r.model], NextSeq(b.rows, c.run));
    if Lands(c, provider, r, weather) { HonestAppend(c, provider, b.rows, b.asked, row, r); }
  }

  lemma SendKeepsUnlanded(c: Config, provider: Provider, b: Books, r: Request, weather: Weather)
    requires r.model in c.prices && AgainOnlyUnlanded(b.sent) && LandedIsKnown(b)
    requires FindCached(b.rows, r.org, ProbeOf(c.digest, c.stateHash, r)).None?
    ensures var t := AfterAsk(c, provider, b, r, c.prices[r.model], weather);
      AgainOnlyUnlanded(t.sent) && LandedIsKnown(t)
  {
    var p := c.prices[r.model];
    var t := AfterAsk(c, provider, b, r, p, weather);
    var row := Paid(c, provider, r, p, NextSeq(b.rows, c.run));
    RowKeepsKnown(b, row);
    StaysKnown(b.rows, row, r.org, ProbeOf(c.digest, c.stateHash, r));
    forall i | 0 <= i < |t.sent| && t.sent[i].landed
      ensures FindCached(t.rows, t.sent[i].org, t.sent[i].probe).Some?
    {
      if i < |b.sent| {
        assert t.sent[i] == b.sent[i];
        assert FindCached(b.(rows := b.rows + [row]).rows, b.sent[i].org, b.sent[i].probe).Some?;
      }
    }
  }

  lemma CallKeeps(c: Config, provider: Provider, b: Books, r: Request, weather: Weather)
    requires Kept(c, provider, b)
    ensures Kept(c, provider, AfterCall(c, provider, b, r, weather))
  {
    if Answerable(c, b, r) {
      HitKeeps(c, provider, b, r, weather);
    } else if Leaves(c, b, r) {
      var t := AfterCall(c, provider, b, r, weather);
      SendKeepsHonest(c, provider, b, r, weather);
      if c.cache { SendKeepsUnlanded(c, provider, b, r, weather); }
      assert t.sent[..|b.sent|] == b.sent;
    }
  }

  lemma EventKeeps(c: Config, provider: Provider, b: Books, e: Event)
    requires Kept(c, provider, b)
    ensures Kept(c, provider, After(c, provider, b, e))
  {
    match e {
      case Call(r, weather) => CallKeeps(c, provider, b, r, weather);
      case Arrival(r, row) => if c.cache { RowKeepsKnown(b, row); }
    }
  }

  /** From any honest table, through any calls, whatever each meets, and any honest rows of others between
      them: every row is the provider's priced answer or a free copy of one; what is reserved is what the
      sends still hold; a replay sends nothing; and with the cache on a probe is sent again only while no
      send of it has landed. */
  lemma {:induction false} EverySessionKeeps(c: Config, provider: Provider, b: Books, events: seq<Event>)
    requires Honest(c, provider, b.rows, b.asked) && Started(b)
    ensures Kept(c, provider, Later(c, provider, b, events))
  {
    if events != [] {
      var n := |events| - 1;
      EverySessionKeeps(c, provider, b, events[..n]);
      EventKeeps(c, provider, Later(c, provider, b, events[..n]), events[n]);
    }
  }

  /** What a call returns is what the provider would answer, and its row carries that text: free and
      pointing at its source if it came from the chain. */
  lemma ReturnedIsDirect(c: Config, provider: Provider, b: Books, r: Request, weather: Weather)
    requires Kept(c, provider, b) && Outcome(c, provider, b.rows, b.inFlight, r, weather).Returned?
    ensures var got := Outcome(c, provider, b.rows, b.inFlight, r, weather);
      var t := AfterCall(c, provider, b, r, weather);
      && ((got.text == provider(WireOf(r)).text && got.model == provider(WireOf(r)).model)
          || SomeConfusion(c.digest, r, b.asked))
      && |t.rows| == |b.rows| + 1 && b.rows <= t.rows && t.rows[|b.rows|].response == got.text
      && (got.cached <==> t.sent == b.sent) && (got.cached ==> IsHit(t.rows, |b.rows|) && got.cost == 0)
      && (c.replay ==> got.cached)
  {
    if Answerable(c, b, r) {
      var at := FindCached(b.rows, r.org, ProbeOf(c.digest, c.stateHash, r)).value;
      var t := AfterCall(c, provider, b, r, weather);
      CachedIsDirect(c, provider, b.rows, b.asked, r, at);
      assert t.rows[at] == b.rows[at];
      assert Copies(t.rows[|b.rows|], t.rows[at]);
    }
  }

  // ----- one probe asked twice -----

  lemma ReservedSince(c: Config, provider: Provider, b: Books, r: Request, weather: Weather)
    requires Leaves(c, b, r) && !Lands(c, provider, r, weather)
    ensures var t := AfterCall(c, provider, b, r, weather);
      t.rows == b.rows && t.inFlight == b.inFlight + if weather.far.Down? then 0 else Projection(r, c.prices[r.model])
  {
  }

  /** Asked again at once, a call is sent again exactly when its first send did not land and what is still
      reserved for it leaves room under the ceiling: the cache spares only what was written. */
  lemma AskedTwice(c: Config, provider: Provider, b: Books, r: Request, first: Weather, second: Weather)
    requires c.cache && Leaves(c, b, r)
    ensures var t := AfterCall(c, provider, b, r, first);
      var kept := if first.far.Down? then 0 else Projection(r, c.prices[r.model]);
      && |t.sent| == |b.sent| + 1
      && (|AfterCall(c, provider, t, r, second).sent| == |b.sent| + 2 <==>
            !Lands(c, provider, r, first) && Affordable(c, b.rows, b.inFlight + kept, r))
      && (|AfterCall(c, provider, t, r, second).sent| == |b.sent| + 1 <==>
            Lands(c, provider, r, first) || !Affordable(c, b.rows, b.inFlight + kept, r))
  {
    var probe := ProbeOf(c.digest, c.stateHash, r);
    if Lands(c, provider, r, first) {
      StaysKnown(b.rows, Paid(c, provider, r, c.prices[r.model], NextSeq(b.rows, c.run)), r.org, probe);
    } else {
      ReservedSince(c, provider, b, r, first);
    }
  }

  // ----- a pinned call answered from the chain -----

  predicate SameAnswer(a: Result, b: Result) {
    match (a, b)
    case (Raised(x), Raised(y)) => x == y
    case (Returned(t, m, _, _), Returned(u, n, _, _)) => t == u && m == n
    case _ => false
  }

  /** A hit refines the direct call it stands for, refusals included, exactly when no pin is broken: the
      lookup never looks at the pin. */
  lemma HitRefinesDirect(c: Config, provider: Provider, r: Request, p: Price, source: CallRow, writable: bool)
    requires source.response == provider(WireOf(r)).text && source.modelReturned == provider(WireOf(r)).model
    ensures SameAnswer(HitOutcome(c, r, source, Weather(Up, writable)),
                       AskOutcome(c, provider, r, p, Weather(Up, writable)))
            <==> !(c.clean(r, source.response) && writable && r.pinned && source.modelReturned != r.model)
  {
  }

  /** So a pinned call that was refused for its model is answered when it is asked again. */
  lemma PinIsForgotten(c: Config, provider: Provider, b: Books, r: Request, first: Weather, second: Weather)
    requires c.cache && Leaves(c, b, r) && second.writable
    requires Outcome(c, provider, b.rows, b.inFlight, r, first) == Raised(ModelUnexpected)
    ensures var t := AfterCall(c, provider, b, r, first);
      Outcome(c, provider, t.rows, t.inFlight, r, second)
      == Returned(provider(WireOf(r)).text, provider(WireOf(r)).model, true, 0)
    ensures provider(WireOf(r)).model != r.model
  {
    var row := Paid(c, provider, r, c.prices[r.model], NextSeq(b.rows, c.run));
    assert (b.rows + [row])[..|b.rows|] == b.rows;
  }

  // ----- a list of calls, whatever each meets -----

  ghost predicate SentOnce(sent: seq<Send>) { forall i, j :: 0 <= i < j < |sent| ==> !Same(sent[i], sent[j]) }

  function Met(calls: seq<Request>, weathers: seq<Weather>): (events: seq<Event>)
    requires |weathers| == |calls|
    ensures |events| == |calls| && forall k :: 0 <= k < |calls| ==> events[k] == Call(calls[k], weathers[k])
  {
    seq(|calls|, k requires 0 <= k < |calls| => Call(calls[k], weathers[k]))
  }

  lemma OneMore(c: Config, provider: Provider, b: Books, events: seq<Event>, k: nat)
    requires 0 < k <= |events|
    ensures Later(c, provider, b, events[..k])
         == After(c, provider, Later(c, provider, b, events[..k - 1]), events[k - 1])
  {
    assert events[..k][..k - 1] == events[..k - 1];
  }

  /** Calls `i` and `j` are of one organisation and one probe, and each could go out as the first. */
  ghost predicate AskedAgain(c: Config, b: Books, calls: seq<Request>, i: nat, j: nat)
    requires i < |calls| && j < |calls|
  {
    && calls[i].org == calls[j].org
    && ProbeOf(c.digest, c.stateHash, calls[i]) == ProbeOf(c.digest, c.stateHash, calls[j])
    && Leaves(c, b, calls[i]) && Leaves(c, b, calls[j])
  }

  lemma {:induction false} SpentGrows(rows: seq<CallRow>, more: seq<CallRow>, org: Str, run: Str, perRun: bool)
    requires rows <= more
    ensures Spent(rows, org, run, perRun) <= Spent(more, org, run, perRun)
    decreases |more|
  {
    if |rows| < |more| {
      SpentGrows(rows, more[..|more| - 1], org, run, perRun);
    } else {
      assert rows == more;
    }
  }

  lemma KnownStays(rows: seq<CallRow>, more: seq<CallRow>, org: Str, probe: Probe)
    requires rows <= more && FindCached(rows, org, probe).Some?
    ensures FindCached(more, org, probe).Some?
  {
    var at := FindCached(rows, org, probe).value;
    assert more[at] == rows[at];
    assert Source(more[at], org, probe);
  }

  /** What could not go out at the start does not go out later. */
  lemma LeavesFromTheStart(c: Config, b: Books, t: Books, r: Request)
    requires Started(b) && b.rows <= t.rows && c.cache && Leaves(c, t, r)
    ensures Leaves(c, b, r)
  {
    var probe := ProbeOf(c.digest, c.stateHash, r);
    SpentGrows(b.rows, t.rows, r.org, c.run, c.perRun);
    if FindCached(b.rows, r.org, probe).Some? { KnownStays(b.rows, t.rows, r.org, probe); }
  }

  /** Every send is of one of the first `n` calls, and one that could go out at the start. */
  ghost predicate SentFor(c: Config, b: Books, calls: seq<Request>, n: nat, s: Send)
    requires n <= |calls|
  {
    exists k :: && 0 <= k < n && s.org == calls[k].org && s.probe == ProbeOf(c.digest, c.stateHash, calls[k])
                && Leaves(c, b, calls[k])
  }

  lemma SendExtends(c: Config, b: Books, calls: seq<Request>, n: nat, sent: seq<Send>, s: Send)
    requires n < |calls| && SentOnce(sent) && forall i :: 0 <= i < |sent| ==> SentFor(c, b, calls, n, sent[i])
    requires forall k :: 0 <= k < n ==> !AskedAgain(c, b, calls, k, n)
    requires s.org == calls[n].org && s.probe == ProbeOf(c.digest, c.stateHash, calls[n]) && Leaves(c, b, calls[n])
    ensures SentOnce(sent + [s])
  {
    forall i | 0 <= i < |sent| ensures !Same(sent[i], s) {
      assert SentFor(c, b, calls, n, sent[i]);
      var k :| && 0 <= k < n && sent[i].org == calls[k].org && Leaves(c, b, calls[k])
               && sent[i].probe == ProbeOf(c.digest, c.stateHash, calls[k]);
      assert !AskedAgain(c, b, calls, k, n);
    }
  }

  /** Where the sends of the first `n` calls stand: once each, of calls that could go out at the start. */
  ghost predicate Placed(c: Config, b: Books, calls: seq<Request>, n: nat, t: Books)
    requires n <= |calls|
  {
    b.rows <= t.rows && SentOnce(t.sent) && forall i :: 0 <= i < |t.sent| ==> SentFor(c, b, calls, n, t.sent[i])
  }

  lemma CallIsPlaced(c: Config, provider: Provider, b: Books, calls: seq<Request>, n: nat, t: Books, weather: Weather)
    requires c.cache && Started(b) && n < |calls| && Placed(c, b, calls, n, t)
    requires forall k :: 0 <= k < n ==> !AskedAgain(c, b, calls, k, n)
    ensures Placed(c, b, calls, n + 1, AfterCall(c, provider, t, calls[n], weather))
  {
    var r := calls[n];
    if Leaves(c, t, r) {
      LeavesFromTheStart(c, b, t, r);
      SendExtends(c, b, calls, n, t.sent, SendOf(c, provider, r, c.prices[r.model], weather));
    }
    SentForGrows(c, b, calls, n, t.sent, AfterCall(c, provider, t, r, weather).sent);
  }

  lemma {:induction false} SendsAreOfCalls(c: Config, provider: Provider, b: Books, calls: seq<Request>,
                                           weathers: seq<Weather>, n: nat)
    requires c.cache && Started(b) && |weathers| == |calls| && n <= |calls|
    requires forall i, j :: 0 <= i < j < |calls| ==> !AskedAgain(c, b, calls, i, j)
    ensures Placed(c, b, calls, n, Later(c, provider, b, Met(calls, weathers)[..n]))
  {
    var events := Met(calls, weathers);
    if n == 0 {
      assert events[..0] == [];
    } else {
      SendsAreOfCalls(c, provider, b, calls, weathers, n - 1);
      OneMore(c, provider, b, events, n);
      CallIsPlaced(c, provider, b, calls, n - 1, Later(c, provider, b, events[..n - 1]), weathers[n - 1]);
    }
  }

  lemma SentForGrows(c: Config, b: Books, calls: seq<Request>, n: nat, sent: seq<Send>, more: seq<Send>)
    requires n < |calls| && forall i :: 0 <= i < |sent| ==> SentFor(c, b, calls, n, sent[i])
    requires more == sent || (|more| == |sent| + 1 && more[..|sent|] == sent && Leaves(c, b, calls[n])
                              && more[|sent|].org == calls[n].org
                              && more[|sent|].probe == ProbeOf(c.digest, c.stateHash, calls[n]))
    ensures forall i :: 0 <= i < |more| ==> SentFor(c, b, calls, n + 1, more[i])
  {
    forall i | 0 <= i < |more| ensures SentFor(c, b, calls, n + 1, more[i]) {
      if i < |sent| {
        assert more[i] == more[..|sent|][i];
        assert SentFor(c, b, calls, n, sent[i]);
      }
    }
  }

  const UNREACHABLE := Weather(Down, false)

  function AllDown(n: nat): seq<Weather> { seq(n, _ => UNREACHABLE) }

  /** What the first `n` calls send when no provider can be reached. */
  ghost function DownSends(c: Config, provider: Provider, b: Books, calls: seq<Request>, n: nat): seq<Send>
    requires n <= |calls|
  {
    if n == 0 then []
    else
      var r := calls[n - 1];
      DownSends(c, provider, b, calls, n - 1)
      + if Leaves(c, b, r) then [SendOf(c, provider, r, c.prices[r.model], UNREACHABLE)] else []
  }

  lemma {:induction false} NothingLandsWhenDown(c: Config, provider: Provider, b: Books, calls: seq<Request>, n: nat)
    requires c.cache && Started(b) && n <= |calls|
    ensures Later(c, provider, b, Met(calls, AllDown(|calls|))[..n])
         == b.(sent := DownSends(c, provider, b, calls, n))
  {
    var events := Met(calls, AllDown(|calls|));
    if n == 0 {
      assert events[..0] == [];
    } else {
      NothingLandsWhenDown(c, provider, b, calls, n - 1);
      OneMore(c, provider, b, events, n);
      assert events[n - 1] == Call(calls[n - 1], UNREACHABLE);
    }
  }

  lemma {:induction false} SendStands(c: Config, provider: Provider, b: Books, calls: seq<Request>, k: nat, n: nat)
    requires k < n <= |calls| && Leaves(c, b, calls[k])
    ensures var all, at := DownSends(c, provider, b, calls, n), |DownSends(c, provider, b, calls, k)|;
      && at < |all| && |DownSends(c, provider, b, calls, k + 1)| == at + 1
      && all[at] == SendOf(c, provider, calls[k], c.prices[calls[k].model], UNREACHABLE)
    ensures |DownSends(c, provider, b, calls, k + 1)| <= |DownSends(c, provider, b, calls, n)|
    decreases n
  {
    if k + 1 < n { SendStands(c, provider, b, calls, k, n - 1); }
  }

  lemma SentTwiceWhenDown(c: Config, provider: Provider, b: Books, calls: seq<Request>, i: nat, j: nat)
    requires c.cache && Started(b) && i < j < |calls| && AskedAgain(c, b, calls, i, j)
    ensures !SentOnce(Later(c, provider, b, Met(calls, AllDown(|calls|))).sent)
  {
    var n := |calls|;
    NothingLandsWhenDown(c, provider, b, calls, n);
    assert Met(calls, AllDown(n))[..n] == Met(calls, AllDown(n));
    SendStands(c, provider, b, calls, i, n);
    SendStands(c, provider, b, calls, j, n);
    SendStands(c, provider, b, calls, i, j);
    var sent := DownSends(c, provider, b, calls, n);
    assert Same(sent[|DownSends(c, provider, b, calls, i)|], sent[|DownSends(c, provider, b, calls, j)|]);
  }

  /** Each probe goes out at most once, whatever the calls meet, exactly when no two of them are of one
      organisation and probe and could each go out on the table there is before the first. */
  lemma SentOnceExactlyWhen(c: Config, provider: Provider, b: Books, calls: seq<Request>)
    requires c.cache && Started(b)
    ensures (forall weathers :: |weathers| == |calls| ==> SentOnce(Later(c, provider, b, Met(calls, weathers)).sent))
            <==> forall i, j :: 0 <= i < j < |calls| ==> !AskedAgain(c, b, calls, i, j)
  {
    if i, j :| 0 <= i < j < |calls| && AskedAgain(c, b, calls, i, j) {
      SentTwiceWhenDown(c, provider, b, calls, i, j);
      assert |AllDown(|calls|)| == |calls|;
    } else {
      forall weathers | |weathers| == |calls| ensures SentOnce(Later(c, provider, b, Met(calls, weathers)).sent) {
        SendsAreOfCalls(c, provider, b, calls, weathers, |calls|);
        assert Met(calls, weathers)[..|calls|] == Met(calls, weathers);
      }
    }
  }

  // ----- a set of calls that was asked about beforehand -----

  ghost function Committed(c: Config, b: Books, org: Str): nat { Spent(b.rows, org, c.run, c.perRun) + b.inFlight }

  ghost predicate Priced(c: Config, calls: seq<Request>) {
    forall k :: 0 <= k < |calls| ==> calls[k].model in c.prices
  }

  /** One organisation's calls, each of a priced model and none dearer than projected. */
  ghost predicate Covered(c: Config, provider: Provider, org: Str, calls: seq<Request>) {
    && Priced(c, calls)
    && forall k :: 0 <= k < |calls| ==>
         && calls[k].org == org
         && Cost(provider, calls[k], c.prices[calls[k].model]) <= Projection(calls[k], c.prices[calls[k].model])
  }

  ghost function Projections(c: Config, calls: seq<Request>): seq<nat>
    requires Priced(c, calls)
  {
    seq(|calls|, k requires 0 <= k < |calls| => Projection(calls[k], c.prices[calls[k].model]))
  }

  /** Call number `k` is not refused at the ceiling. */
  ghost predicate Passes(c: Config, provider: Provider, b: Books, calls: seq<Request>, weathers: seq<Weather>, k: nat)
    requires k < |calls| == |weathers|
  {
    var t := Later(c, provider, b, Met(calls, weathers)[..k]);
    Outcome(c, provider, t.rows, t.inFlight, calls[k], weathers[k]) != Raised(Exhausted)
  }

  ghost predicate AllPass(c: Config, provider: Provider, b: Books, calls: seq<Request>, weathers: seq<Weather>)
    requires |weathers| == |calls|
  {
    forall k :: 0 <= k < |calls| ==> Passes(c, provider, b, calls, weathers, k)
  }

  /** The call is one for the provider, on the table there is before the first. */
  ghost predicate Asked(c: Config, b: Books, r: Request) {
    !c.replay && (c.cache ==> FindCached(b.rows, r.org, ProbeOf(c.digest, c.stateHash, r)).None?)
  }

  /** What each call may take from the cut: its projection if it is asked and may leave, and nothing else. */
  ghost function Takes(c: Config, b: Books, calls: seq<Request>): (ts: seq<nat>)
    requires Priced(c, calls)
    ensures |ts| == |calls|
  {
    seq(|calls|, k requires 0 <= k < |calls| =>
      if Asked(c, b, calls[k]) && c.mayLeave(calls[k]) then Projection(calls[k], c.prices[calls[k].model]) else 0)
  }

  /** A call that is one for the provider later was one before the first. */
  lemma AskedFromTheStart(c: Config, b: Books, t: Books, r: Request)
    requires b.rows <= t.rows && Asked(c, t, r)
    ensures Asked(c, b, r)
  {
    var probe := ProbeOf(c.digest, c.stateHash, r);
    if FindCached(b.rows, r.org, probe).Some? { KnownStays(b.rows, t.rows, r.org, probe); }
  }

  lemma CallTakes(c: Config, provider: Provider, b: Books, t: Books, r: Request, weather: Weather)
    requires r.model in c.prices && Cost(provider, r, c.prices[r.model]) <= Projection(r, c.prices[r.model])
    requires b.rows <= t.rows
    ensures b.rows <= AfterCall(c, provider, t, r, weather).rows
    ensures Committed(c, AfterCall(c, provider, t, r, weather), r.org)
         <= Committed(c, t, r.org)
            + if Asked(c, b, r) && c.mayLeave(r) then Projection(r, c.prices[r.model]) else 0
  {
    var probe, n := ProbeOf(c.digest, c.stateHash, r), NextSeq(t.rows, c.run);
    if Answerable(c, t, r) {
      var at := FindCached(t.rows, r.org, probe).value;
      SpentAppend(t.rows, HitRow(c, r, probe, t.rows[at], n), r.org, c.run, c.perRun);
    } else if Leaves(c, t, r) {
      AskedFromTheStart(c, b, t, r);
      SpentAppend(t.rows, Paid(c, provider, r, c.prices[r.model], n), r.org, c.run, c.perRun);
    }
  }

  lemma {:induction false} SetTakes(c: Config, provider: Provider, b: Books, org: Str, calls: seq<Request>,
                                    weathers: seq<Weather>, k: nat)
    requires Covered(c, provider, org, calls) && |weathers| == |calls| && k <= |calls|
    ensures var t := Later(c, provider, b, Met(calls, weathers)[..k]);
      b.rows <= t.rows && Committed(c, t, org) <= Committed(c, b, org) + A.UpTo(Takes(c, b, calls), k)
  {
    var events := Met(calls, weathers);
    if k > 0 {
      OneMore(c, provider, b, events, k);
      SetTakes(c, provider, b, org, calls, weathers, k - 1);
      CallTakes(c, provider, b, Later(c, provider, b, events[..k - 1]), calls[k - 1], weathers[k - 1]);
    } else {
      assert events[..0] == [];
    }
  }

  lemma NotExhausted(c: Config, provider: Provider, t: Books, r: Request, weather: Weather)
    requires r.model in c.prices && Committed(c, t, r.org) < c.cut
    requires Committed(c, t, r.org) + Projection(r, c.prices[r.model]) <= c.cut
    ensures Outcome(c, provider, t.rows, t.inFlight, r, weather) != Raised(Exhausted)
  {
    assert Affordable(c, t.rows, t.inFlight, r);
  }

  /** The ceiling would pass call `k` with all that the calls before it may take. */
  ghost predicate HasRoom(c: Config, b: Books, org: Str, calls: seq<Request>, k: nat)
    requires Priced(c, calls) && k < |calls|
  {
    Budget.Admits(Committed(c, b, org) + A.UpTo(Takes(c, b, calls), k), 0, Projections(c, calls)[k], c.cut)
  }

  lemma RoomPasses(c: Config, provider: Provider, b: Books, org: Str, calls: seq<Request>, weathers: seq<Weather>,
                   k: nat)
    requires Covered(c, provider, org, calls) && |weathers| == |calls| && k < |calls|
    requires Asked(c, b, calls[k]) ==> HasRoom(c, b, org, calls, k)
    ensures Passes(c, provider, b, calls, weathers, k)
  {
    var t := Later(c, provider, b, Met(calls, weathers)[..k]);
    SetTakes(c, provider, b, org, calls, weathers, k);
    if Asked(c, t, calls[k]) {
      AskedFromTheStart(c, b, t, calls[k]);
      NotExhausted(c, provider, t, calls[k], weathers[k]);
    }
  }

  const UNHEARD := Weather(Slow, false)

  function AllSlow(n: nat): seq<Weather> { seq(n, _ => UNHEARD) }

  lemma SlowCallHolds(c: Config, provider: Provider, b: Books, t: Books, r: Request)
    requires r.model in c.prices && t.rows == b.rows
    requires Outcome(c, provider, t.rows, t.inFlight, r, UNHEARD) != Raised(Exhausted)
    ensures var u := AfterCall(c, provider, t, r, UNHEARD);
      && u.rows == b.rows
      && Committed(c, u, r.org) == Committed(c, t, r.org)
           + if Asked(c, b, r) && c.mayLeave(r) then Projection(r, c.prices[r.model]) else 0
  {
    if Asked(c, t, r) { assert Affordable(c, t.rows, t.inFlight, r); }
  }

  /** If all pass and none is heard of again, everything they may take stays reserved. */
  lemma {:induction false} SlowCallsHoldAll(c: Config, provider: Provider, b: Books, org: Str, calls: seq<Request>,
                                            k: nat)
    requires Covered(c, provider, org, calls) && k <= |calls|
    requires forall j :: 0 <= j < k ==> Passes(c, provider, b, calls, AllSlow(|calls|), j)
    ensures var t := Later(c, provider, b, Met(calls, AllSlow(|calls|))[..k]);
      t.rows == b.rows && Committed(c, t, org) == Committed(c, b, org) + A.UpTo(Takes(c, b, calls), k)
  {
    var events := Met(calls, AllSlow(|calls|));
    if k > 0 {
      OneMore(c, provider, b, events, k);
      SlowCallsHoldAll(c, provider, b, org, calls, k - 1);
      assert Passes(c, provider, b, calls, AllSlow(|calls|), k - 1);
      SlowCallHolds(c, provider, b, Later(c, provider, b, events[..k - 1]), calls[k - 1]);
    } else {
      assert events[..0] == [];
    }
  }

  /** A call for the provider that passes after calls none of which is heard of again had room. */
  lemma SlowCallHadRoom(c: Config, provider: Provider, b: Books, org: Str, calls: seq<Request>, k: nat)
    requires Covered(c, provider, org, calls) && k < |calls| && Asked(c, b, calls[k])
    requires AllPass(c, provider, b, calls, AllSlow(|calls|))
    ensures HasRoom(c, b, org, calls, k)
  {
    SlowCallsHoldAll(c, provider, b, org, calls, k);
    assert Passes(c, provider, b, calls, AllSlow(|calls|), k);
  }

  /** Every call for the provider has room. */
  ghost predicate AllHaveRoom(c: Config, b: Books, org: Str, calls: seq<Request>)
    requires Priced(c, calls)
  {
    forall k :: 0 <= k < |calls| && Asked(c, b, calls[k]) ==> HasRoom(c, b, org, calls, k)
  }

  /** With the cache on or off, in replay or not: the calls of a set are passed at the ceiling, whatever each
      meets, exactly when each that the table does not answer has room beside all that those before it may
      take. A call answered from the chain needs none. */
  lemma SetsAreMadeExactlyWhen(c: Config, provider: Provider, b: Books, org: Str, calls: seq<Request>)
    requires Covered(c, provider, org, calls)
    ensures (forall weathers :: |weathers| == |calls| ==> AllPass(c, provider, b, calls, weathers))
            <==> AllHaveRoom(c, b, org, calls)
  {
    assert |AllSlow(|calls|)| == |calls|;
    if AllPass(c, provider, b, calls, AllSlow(|calls|)) {
      forall k | 0 <= k < |calls| && Asked(c, b, calls[k]) ensures HasRoom(c, b, org, calls, k) {
        SlowCallHadRoom(c, provider, b, org, calls, k);
      }
    }
    if AllHaveRoom(c, b, org, calls) {
      forall weathers | |weathers| == |calls| ensures AllPass(c, provider, b, calls, weathers) {
        forall k | 0 <= k < |calls| ensures Passes(c, provider, b, calls, weathers, k) {
          RoomPasses(c, provider, b, org, calls, weathers, k);
        }
      }
    }
  }

  lemma TakesNoMore(c: Config, b: Books, calls: seq<Request>)
    requires Priced(c, calls)
    ensures forall k :: 0 <= k < |calls| ==> Takes(c, b, calls)[k] <= Projections(c, calls)[k]
  {
  }

  lemma TakesAreProjections(ts: seq<nat>, ps: seq<nat>, k: nat)
    requires |ts| == |ps| && k < |ps| && forall j :: 0 <= j < |ps| ==> ts[j] <= ps[j]
    ensures A.UpTo(ts, k) + ps[k] <= A.UpTo(ps, |ps|)
  {
    A.UpToCompares(ts, ps, k);
    A.UpToGrows(ps, k + 1, |ps|);
  }

  /** Call `k` projects nothing and stands where those before it may reach the cut. */
  ghost predicate FreeAtTheCut(c: Config, b: Books, org: Str, calls: seq<Request>, k: nat)
    requires Priced(c, calls) && k < |calls|
  {
    Projections(c, calls)[k] == 0 && Committed(c, b, org) + A.UpTo(Takes(c, b, calls), k) == c.cut
  }

  /** So does a call for the provider. */
  ghost predicate AskedFreeAtTheCut(c: Config, b: Books, org: Str, calls: seq<Request>)
    requires Priced(c, calls)
  {
    exists k :: 0 <= k < |calls| && Asked(c, b, calls[k]) && FreeAtTheCut(c, b, org, calls, k)
  }

  lemma RoomUnlessFree(c: Config, b: Books, org: Str, calls: seq<Request>, k: nat)
    requires Priced(c, calls) && k < |calls|
    requires Committed(c, b, org) + A.UpTo(Projections(c, calls), |calls|) <= c.cut
    ensures HasRoom(c, b, org, calls, k) <==> !FreeAtTheCut(c, b, org, calls, k)
  {
    TakesNoMore(c, b, calls);
    TakesAreProjections(Takes(c, b, calls), Projections(c, calls), k);
  }

  lemma AllHaveRoomUnlessFree(c: Config, b: Books, org: Str, calls: seq<Request>)
    requires Priced(c, calls) && Committed(c, b, org) + A.UpTo(Projections(c, calls), |calls|) <= c.cut
    ensures AllHaveRoom(c, b, org, calls) <==> !AskedFreeAtTheCut(c, b, org, calls)
  {
    if AskedFreeAtTheCut(c, b, org, calls) {
      var k :| 0 <= k < |calls| && Asked(c, b, calls[k]) && FreeAtTheCut(c, b, org, calls, k);
      RoomUnlessFree(c, b, org, calls, k);
    } else {
      forall k | 0 <= k < |calls| && Asked(c, b, calls[k]) ensures HasRoom(c, b, org, calls, k) {
        RoomUnlessFree(c, b, org, calls, k);
      }
    }
  }

  /** Where the projections fit together, a free call at the cut is the only thing that is ever refused. */
  lemma FittingSetsAreMade(c: Config, provider: Provider, b: Books, org: Str, calls: seq<Request>)
    requires Covered(c, provider, org, calls)
    requires Committed(c, b, org) + A.UpTo(Projections(c, calls), |calls|) <= c.cut
    ensures (forall weathers :: |weathers| == |calls| ==> AllPass(c, provider, b, calls, weathers))
            <==> !AskedFreeAtTheCut(c, b, org, calls)
  {
    SetsAreMadeExactlyWhen(c, provider, b, org, calls);
    AllHaveRoomUnlessFree(c, b, org, calls);
  }

  // ----- asked about before redaction -----

  /** What travels is what the caller holds with its enquiry and sources redacted. */
  predicate Redacted(held: Request, call: Request) { call == held.(body := call.body, kb := call.kb) }

  /** The calls the caller asks about, on the text it holds. */
  ghost predicate Holds(held: seq<Request>, calls: seq<Request>) {
    |held| == |calls| && forall k :: 0 <= k < |held| ==> Redacted(held[k], calls[k])
  }

  /** What `wouldAdmit` answers when it passes the set: it is put the text that is held. */
  ghost predicate PassedAsOne(c: Config, b: Books, org: Str, held: seq<Request>)
    requires Priced(c, held)
  {
    Budget.Admits(Spent(b.rows, org, c.run, c.perRun), b.inFlight, A.UpTo(Projections(c, held), |held|), c.cut)
  }

  /** A passed set no call of which has grown on the way is made, whatever each meets, exactly when no free
      call for the provider stands where those before it may reach the cut. */
  lemma PassedSetsAreMade(c: Config, provider: Provider, b: Books, org: Str, held: seq<Request>, calls: seq<Request>)
    requires Covered(c, provider, org, calls) && Holds(held, calls) && Priced(c, held)
    requires PassedAsOne(c, b, org, held)
    requires forall k :: 0 <= k < |calls| ==> Projections(c, calls)[k] <= Projections(c, held)[k]
    ensures (forall weathers :: |weathers| == |calls| ==> AllPass(c, provider, b, calls, weathers))
            <==> !AskedFreeAtTheCut(c, b, org, calls)
  {
    A.UpToCompares(Projections(c, calls), Projections(c, held), |calls|);
    FittingSetsAreMade(c, provider, b, org, calls);
  }

  lemma Thousands(x: nat, y: nat)
    requires x + 1000 <= y
    ensures CeilDiv(x, 1000) < CeilDiv(y, 1000)
  {
  }

  lemma ProductsApart(a: nat, b: nat, p: nat)
    requires a < b
    ensures a * p + p <= b * p
  {
    assert (b - a - 1) * p >= 0;
    assert (b - a - 1) * p == b * p - a * p - p;
  }

  lemma MoreTokens(a: nat, b: nat, p: nat)
    requires a < b && p >= 1000
    ensures PriceMicro(a, p) < PriceMicro(b, p)
  {
    ProductsApart(a, b, p);
    Thousands(a * p, b * p);
  }

  lemma MoreText(a: nat, b: nat)
    requires a + 4 <= b
    ensures EstimateTokens(a) < EstimateTokens(b)
  {
  }

  lemma LongerProjectsMore(s: nat, short: nat, long: nat, allowance: nat, p: Price)
    requires short + 4 <= long && p.inputPer1k >= 1000
    ensures ProjectedMicro(s, short, allowance, p.inputPer1k, p.outputPer1k)
          < ProjectedMicro(s, long, allowance, p.inputPer1k, p.outputPer1k)
  {
    MoreText(short, long);
    MoreTokens(EstimateTokens(s) + EstimateTokens(short), EstimateTokens(s) + EstimateTokens(long), p.inputPer1k);
  }

  /** Four characters more, as written, are another token. */
  lemma GrownCallsProjectMore(held: Request, call: Request, p: Price)
    requires Redacted(held, call) && call.kb == held.kb && |Escape(call.body)| >= |Escape(held.body)| + 4
    requires p.inputPer1k >= 1000
    ensures Projection(held, p) < Projection(call, p)
  {
    MessageLength(held.body, held.kb);
    MessageLength(call.body, call.kb);
    assert |WireOf(held).user| + 4 <= |WireOf(call).user|;
    LongerProjectsMore(|held.promptText|, |WireOf(held).user|, |WireOf(call).user|, AllowanceOf(held.sampling), p);
  }

  /** But where redaction has lengthened a call, a passed set may be refused with no free call in it: at a
      price of at least one unit a token and a cut that the held text just meets, the call itself is. */
  lemma GrownSetIsRefused(c: Config, provider: Provider, held: Request, call: Request, weather: Weather)
    requires held.model in c.prices && c.prices[held.model].inputPer1k >= 1000 && !c.replay
    requires Redacted(held, call) && call.kb == held.kb && |Escape(call.body)| >= |Escape(held.body)| + 4
    requires c.cut == Projection(held, c.prices[held.model]) > 0
    ensures PassedAsOne(c, Books([], 0, [], []), held.org, [held])
    ensures !Passes(c, provider, Books([], 0, [], []), [call], [weather], 0)
  {
    GrownCallsProjectMore(held, call, c.prices[held.model]);
    assert A.UpTo(Projections(c, [held]), 1) == A.UpTo(Projections(c, [held]), 0) + c.cut;
    assert Met([call], [weather])[..0] == [];
  }

  /** An enquiry that ends in an address is such a call, whatever plain words come before it: its marker is
      ten characters longer. Words there must be, for one that is all marker is refused as emptied. */
  lemma AddressGrows(held: Request, words: Str)
    requires Plain(words) && held.body == words + ADDRESS
    ensures var call := held.(body := words + MARKER);
      Redacted(held, call) && call.kb == held.kb && |Escape(call.body)| >= |Escape(held.body)| + 4
  {
    MarkerIsLonger(words);
  }

  // ----- whose money the ceiling counts -----

  /** The sum is one organisation's and the reservations are the process's: an admitted call keeps what is
      committed for an organisation within its cut, whatever it meets, exactly when it is that organisation's
      own or happens to fit beside it. */
  lemma CeilingIsOfOneOrganisation(c: Config, provider: Provider, b: Books, org: Str, r: Request)
    requires Leaves(c, b, r) && Committed(c, b, org) <= c.cut
    requires Cost(provider, r, c.prices[r.model]) <= Projection(r, c.prices[r.model])
    ensures (forall weather :: Committed(c, AfterCall(c, provider, b, r, weather), org) <= c.cut)
            <==> r.org == org || Committed(c, b, org) + Projection(r, c.prices[r.model]) <= c.cut
  {
    var p := c.prices[r.model];
    forall weather ensures Committed(c, AfterCall(c, provider, b, r, weather), org)
                        <= Committed(c, b, org) + Projection(r, p)
    {
      SpentAppend(b.rows, Paid(c, provider, r, p, NextSeq(b.rows, c.run)), org, c.run, c.perRun);
    }
    assert Committed(c, AfterCall(c, provider, b, r, UNHEARD), org) == Committed(c, b, org) + Projection(r, p);
  }

  /** So a run of one organisation's calls, one after another, never passes the cut. */
  lemma {:induction false} OneOrganisationKeepsTheCut(c: Config, provider: Provider, b: Books, org: Str,
                                                      calls: seq<Request>, weathers: seq<Weather>, k: nat)
    requires Covered(c, provider, org, calls) && |weathers| == |calls| && k <= |calls|
    requires Committed(c, b, org) <= c.cut
    ensures Committed(c, Later(c, provider, b, Met(calls, weathers)[..k]), org) <= c.cut
  {
    var events := Met(calls, weathers);
    if k > 0 {
      OneMore(c, provider, b, events, k);
      OneOrganisationKeepsTheCut(c, provider, b, org, calls, weathers, k - 1);
      OwnCallKeepsTheCut(c, provider, Later(c, provider, b, events[..k - 1]), calls[k - 1], weathers[k - 1]);
    } else {
      assert events[..0] == [];
    }
  }

  lemma OwnCallKeepsTheCut(c: Config, provider: Provider, t: Books, r: Request, weather: Weather)
    requires r.model in c.prices && Cost(provider, r, c.prices[r.model]) <= Projection(r, c.prices[r.model])
    requires Committed(c, t, r.org) <= c.cut
    ensures Committed(c, AfterCall(c, provider, t, r, weather), r.org) <= c.cut
  {
    var probe, n := ProbeOf(c.digest, c.stateHash, r), NextSeq(t.rows, c.run);
    if Answerable(c, t, r) {
      var at := FindCached(t.rows, r.org, probe).value;
      SpentAppend(t.rows, HitRow(c, r, probe, t.rows[at], n), r.org, c.run, c.perRun);
    } else if Leaves(c, t, r) {
      SpentAppend(t.rows, Paid(c, provider, r, c.prices[r.model], n), r.org, c.run, c.perRun);
    }
  }
}
