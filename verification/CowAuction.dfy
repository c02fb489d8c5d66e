/** The shadow auction scorer of `cow_auction.rs`. */
module CowAuction {
  import opened Arithmetic
  import opened Chain
  import opened Wrappers

  type Uid = nat

  /** A directed pair: the key a reference score is looked up under. */
  type PairKey = (Address, Address)

  datatype Auction = Auction(id: string, references: map<PairKey, nat>)

  datatype Candidate = Candidate(uid: Uid, sell: Address, buy: Address, surplus: nat, gas: nat, riskBps: nat, pairScore: nat)

  datatype Refusal = NoFills | NoId | Repeated | SelfPair | RiskTooHigh

  datatype Reason = BelowReference(key: PairKey) | NotPositive

  datatype Score = Score(id: string, accepted: bool, unfair: bool, orders: nat,
                         gross: nat, gas: nat, loss: nat, net: nat, reason: Option<Reason>)

  function Key(c: Candidate): PairKey
  {
    (c.sell, c.buy)
  }

  /** The characters `trim` takes off. */
  predicate White(c: char)
  {
    var code := c as int;
    9 <= code <= 13 || code == 32 || code == 0x85 || code == 0xA0 || code == 0x1680 || 0x2000 <= code <= 0x200A
    || code == 0x2028 || code == 0x2029 || code == 0x202F || code == 0x205F || code == 0x3000
  }

  predicate Blank(id: string)
  {
    forall i :: 0 <= i < |id| ==> White(id[i])
  }

  /** In ASCII an id is blank when it holds spaces, tabs and line ends only. */
  lemma BlankAscii(id: string)
    requires forall i :: 0 <= i < |id| ==> id[i] as int < 128
    ensures Blank(id) <==> forall i :: 0 <= i < |id| ==> id[i] in {' ', '\t', '\n', '\r', 11 as char, 12 as char}
  {
    assert 11 as char as int == 11 && 12 as char as int == 12;
  }

  function RevertLoss(surplus: nat, riskBps: nat): nat
  {
    Quot(surplus * riskBps, 10_000)
  }

  function Loss(c: Candidate): nat
  {
    RevertLoss(c.surplus, c.riskBps)
  }

  function Net(c: Candidate): nat
  {
    SaturatingSub(SaturatingSub(c.surplus, c.gas), Loss(c))
  }

  predicate Fair(auction: Auction, c: Candidate)
  {
    Key(c) in auction.references ==> auction.references[Key(c)] <= c.pairScore
  }

  // ------------------------------------------------------------------
  // Sums and faults
  // ------------------------------------------------------------------

  function Total(f: Candidate -> nat, cs: seq<Candidate>): nat
    decreases |cs|
  {
    if cs == [] then 0 else Total(f, cs[..|cs| - 1]) + f(cs[|cs| - 1])
  }

  function Sums(cs: seq<Candidate>): (nat, nat, nat, nat)
  {
    (Total((c: Candidate) => c.surplus, cs), Total((c: Candidate) => c.gas, cs), Total(Loss, cs), Total(Net, cs))
  }

  datatype Fault = Refused(refusal: Refusal) | Unfair(key: PairKey)

  /** What is wrong with a fill on its own, in the order the checks are made. */
  function Intrinsic(auction: Auction, c: Candidate): Option<Fault>
  {
    if c.sell == c.buy then Some(Refused(SelfPair))
    else if c.riskBps > 10_000 then Some(Refused(RiskTooHigh))
    else if !Fair(auction, c) then Some(Unfair(Key(c)))
    else None
  }

  /** What is wrong with the `i`-th candidate: its order was filled before, or the fill itself. */
  function FaultAt(auction: Auction, cs: seq<Candidate>, i: nat): Option<Fault>
    requires i < |cs|
  {
    if exists j :: 0 <= j < i && cs[j].uid == cs[i].uid then Some(Refused(Repeated)) else Intrinsic(auction, cs[i])
  }

  predicate CleanBefore(auction: Auction, cs: seq<Candidate>, n: nat)
    requires n <= |cs|
  {
    forall i :: 0 <= i < n ==> FaultAt(auction, cs, i) == None
  }

  function Scored(auction: Auction, cs: seq<Candidate>, summed: seq<Candidate>, accepted: bool, reason: Option<Reason>): Score
  {
    var (gross, gas, loss, net) := Sums(summed);
    Score(auction.id, accepted, reason.Some? && reason.value.BelowReference?, |cs|, gross, gas, loss, net, reason)
  }

  /** The answer to a batch whose first faulty candidate is the `n`-th (none for `n == |cs|`). */
  function Verdict(auction: Auction, cs: seq<Candidate>, n: nat): Result<Score, Refusal>
    requires n <= |cs|
  {
    if n < |cs| then
      match FaultAt(auction, cs, n)
      case Some(Refused(refusal)) => Err(refusal)
      case Some(Unfair(key)) => Ok(Scored(auction, cs, cs[..n], false, Some(BelowReference(key))))
      case None => Err(NoFills)
    else if Sums(cs).3 == 0 then Ok(Scored(auction, cs, cs, false, Some(NotPositive)))
    else Ok(Scored(auction, cs, cs, true, None))
  }

  function FirstFault(auction: Auction, cs: seq<Candidate>, i: nat): (n: nat)
    requires i <= |cs| && CleanBefore(auction, cs, i)
    ensures n <= |cs| && CleanBefore(auction, cs, n) && (n < |cs| ==> FaultAt(auction, cs, n).Some?)
    decreases |cs| - i
  {
    if i == |cs| || FaultAt(auction, cs, i).Some? then i else FirstFault(auction, cs, i + 1)
  }

  function Answer(auction: Auction, cs: seq<Candidate>): Result<Score, Refusal>
  {
    if cs == [] then Err(NoFills)
    else if Blank(auction.id) then Err(NoId)
    else Verdict(auction, cs, FirstFault(auction, cs, 0))
  }

  lemma FirstFaultIs(auction: Auction, cs: seq<Candidate>, n: nat)
    requires n <= |cs| && CleanBefore(auction, cs, n) && (n < |cs| ==> FaultAt(auction, cs, n).Some?)
    ensures FirstFault(auction, cs, 0) == n
  {
    var m := FirstFault(auction, cs, 0);
    assert m < |cs| ==> FaultAt(auction, cs, m) != None;
    assert n < |cs| ==> FaultAt(auction, cs, n) != None;
  }

  // ------------------------------------------------------------------
  // The rules in the auction's own terms
  // ------------------------------------------------------------------

  /** The fill of the `i`-th candidate breaks no rule: its order is new, it trades two tokens, its
      risk is a share, and a reference of its directed pair is met. */
  predicate Stands(auction: Auction, cs: seq<Candidate>, i: nat)
    requires i < |cs|
  {
    var c := cs[i];
    && (forall j :: 0 <= j < i ==> cs[j].uid != c.uid)
    && c.sell != c.buy && c.riskBps <= 10_000
    && ((c.sell, c.buy) in auction.references ==> c.pairScore >= auction.references[(c.sell, c.buy)])
  }

  predicate AllStand(auction: Auction, cs: seq<Candidate>, n: nat)
    requires n <= |cs|
  {
    forall i :: 0 <= i < n ==> Stands(auction, cs, i)
  }

  /** The revert risk's share of the surplus, rounded down. */
  predicate IsLoss(c: Candidate, loss: nat)
  {
    loss * 10_000 <= c.surplus * c.riskBps < loss * 10_000 + 10_000
  }

  /** What is left of the surplus after gas and loss, if anything. */
  predicate IsWorth(c: Candidate, lost: nat, worth: nat)
  {
    if c.gas + lost <= c.surplus then c.gas + lost + worth == c.surplus else worth == 0
  }

  /** The sums over the fills: surplus, gas, expected losses, and what each fill is worth beyond its
      gas and its loss. */
  ghost predicate Books(cs: seq<Candidate>, gross: int, gas: int, loss: int, net: int)
    decreases |cs|
  {
    if cs == [] then gross == gas == loss == net == 0
    else
      var c := cs[|cs| - 1];
      exists lost: nat, worth: nat :: IsLoss(c, lost) && IsWorth(c, lost, worth)
        && Books(cs[..|cs| - 1], gross - c.surplus, gas - c.gas, loss - lost, net - worth)
  }

  /** The fill is worth something once its gas and its share of risk are paid. */
  predicate Earns(c: Candidate)
  {
    c.gas < c.surplus && c.surplus * c.riskBps < (c.surplus - c.gas) * 10_000
  }

  /** `score_shadow_solution`: the first fault decides; sums cover the candidates before it. */
  method ScoreShadowSolution(auction: Auction, candidates: seq<Candidate>) returns (r: Result<Score, Refusal>)
    ensures r == Answer(auction, candidates)
    ensures r.Ok? && r.value.accepted <==> Accepts(auction, candidates)
    ensures r.Ok? && r.value.accepted
       <==> candidates != [] && !Blank(auction.id) && AllStand(auction, candidates, |candidates|)
            && exists c :: c in candidates && Earns(c)
    ensures r == Err(NoFills) <==> candidates == []
    ensures r == Err(NoId) <==> candidates != [] && Blank(auction.id)
    ensures r.Err? && candidates != [] && !Blank(auction.id) ==>
              exists n: nat :: n < |candidates| && AllStand(auction, candidates, n) && Breaks(candidates, n, r.error)
    ensures r.Ok? ==> Reports(auction, candidates, r.value)
  {
    hide AllStand, Earns, Breaks, Reports, Books, Stands, Accepts, IsLoss, Pays, FirstFault, Blank, Quot;
    AnswerIsPlain(auction, candidates);
    AcceptsPlainly(auction, candidates);
    AnswerAccepts(auction, candidates);
    if candidates == [] { return Err(NoFills); }
    if Blank(auction.id) { return Err(NoId); }
    var seen: set<Uid> := {};
    var gross, gas, loss, net := 0, 0, 0, 0;
    for i := 0 to |candidates|
      invariant forall uid :: uid in seen <==> exists j :: 0 <= j < i && candidates[j].uid == uid
      invariant (gross, gas, loss, net) == Sums(candidates[..i])
      invariant CleanBefore(auction, candidates, i)
    {
      assert candidates[..i + 1][..i] == candidates[..i];
      var c := candidates[i];
      if FaultAt(auction, candidates, i).Some? { FirstFaultIs(auction, candidates, i); }
      if c.uid in seen { return Err(Repeated); }
      seen := seen + {c.uid};
      if c.sell == c.buy { return Err(SelfPair); }
      if c.riskBps > 10_000 { return Err(RiskTooHigh); }
      var key := Key(c);
      if key in auction.references && c.pairScore < auction.references[key] {
        return Ok(Score(auction.id, false, true, |candidates|, gross, gas, loss, net, Some(BelowReference(key))));
      }
      var expected := RevertLoss(c.surplus, c.riskBps);
      gross, gas, loss := gross + c.surplus, gas + c.gas, loss + expected;
      net := net + SaturatingSub(SaturatingSub(c.surplus, c.gas), expected);
    }
    assert candidates[..|candidates|] == candidates;
    FirstFaultIs(auction, candidates, |candidates|);
    if net == 0 {
      return Ok(Score(auction.id, false, false, |candidates|, gross, gas, loss, net, Some(NotPositive)));
    }
    r := Ok(Score(auction.id, true, false, |candidates|, gross, gas, loss, net, None));
  }

  /** What an error says of the candidate it stopped at: rules are checked in this order. */
  predicate Breaks(cs: seq<Candidate>, n: nat, refusal: Refusal)
    requires n < |cs|
  {
    var c := cs[n];
    var repeated := exists j :: 0 <= j < n && cs[j].uid == c.uid;
    match refusal
    case Repeated => repeated
    case SelfPair => !repeated && c.sell == c.buy
    case RiskTooHigh => !repeated && c.sell != c.buy && c.riskBps > 10_000
    case _ => false
  }

  /** The candidate sells and buys below the reference of its directed pair, and nothing else. */
  predicate UnderReference(auction: Auction, cs: seq<Candidate>, n: nat)
    requires n < |cs|
  {
    var c := cs[n];
    && (forall j :: 0 <= j < n ==> cs[j].uid != c.uid)
    && c.sell != c.buy && c.riskBps <= 10_000
    && (c.sell, c.buy) in auction.references && c.pairScore < auction.references[(c.sell, c.buy)]
  }

  /** A score reports the sums up to where it stopped, and why. */
  ghost predicate Reports(auction: Auction, cs: seq<Candidate>, s: Score)
  {
    && s.id == auction.id && s.orders == |cs| && (s.accepted <==> s.reason.None?)
    && exists n: nat :: n <= |cs| && AllStand(auction, cs, n) && Books(cs[..n], s.gross, s.gas, s.loss, s.net)
         && (s.unfair <==> n < |cs|)
         && (match s.reason
             case None => n == |cs| && 0 < s.net
             case Some(NotPositive) => n == |cs| && s.net == 0
             case Some(BelowReference(key)) =>
               n < |cs| && UnderReference(auction, cs, n) && key == (cs[n].sell, cs[n].buy))
  }

  lemma LossIs(c: Candidate)
    ensures IsLoss(c, Loss(c))
  {
    QuotBounds(c.surplus * c.riskBps, 10_000);
  }

  /** What a fill is worth, without the rounding. */
  lemma PaysExactlyWhen(c: Candidate)
    ensures Pays(c) <==> Earns(c)
  {
    LossIs(c);
    if c.gas < c.surplus {
      var left, weighted := c.surplus - c.gas, c.surplus * c.riskBps;
      if Loss(c) < left {
        MulMono(Loss(c) + 1, left, 10_000);
      } else {
        MulMono(left, Loss(c), 10_000);
      }
    }
  }

  lemma StandsExactlyWhen(auction: Auction, cs: seq<Candidate>, i: nat)
    requires i < |cs|
    ensures Stands(auction, cs, i) <==> FaultAt(auction, cs, i) == None
    ensures FaultAt(auction, cs, i) == Some(Refused(Repeated)) <==> Breaks(cs, i, Repeated)
    ensures FaultAt(auction, cs, i) == Some(Refused(SelfPair)) <==> Breaks(cs, i, SelfPair)
    ensures FaultAt(auction, cs, i) == Some(Refused(RiskTooHigh)) <==> Breaks(cs, i, RiskTooHigh)
    ensures FaultAt(auction, cs, i).Some? && FaultAt(auction, cs, i).value.Unfair?
       <==> UnderReference(auction, cs, i)
    ensures FaultAt(auction, cs, i).Some? && FaultAt(auction, cs, i).value.Unfair? ==>
              FaultAt(auction, cs, i).value.key == (cs[i].sell, cs[i].buy)
  {
  }

  lemma AllStandExactlyWhen(auction: Auction, cs: seq<Candidate>, n: nat)
    requires n <= |cs|
    ensures AllStand(auction, cs, n) <==> CleanBefore(auction, cs, n)
  {
    forall i | 0 <= i < n
      ensures Stands(auction, cs, i) <==> FaultAt(auction, cs, i) == None
    {
      StandsExactlyWhen(auction, cs, i);
    }
    hide Stands, FaultAt;
  }

  lemma {:induction false} SumsAreBooks(cs: seq<Candidate>)
    ensures var (gross, gas, loss, net) := Sums(cs); Books(cs, gross, gas, loss, net)
    decreases |cs|
  {
    if cs != [] {
      var c := cs[|cs| - 1];
      SumsAreBooks(cs[..|cs| - 1]);
      LossIs(c);
      assert IsWorth(c, Loss(c), Net(c));
      hide IsLoss, IsWorth, RevertLoss;
      assert IsLoss(c, Loss(c));
    }
  }

  lemma AcceptsPlainly(auction: Auction, cs: seq<Candidate>)
    ensures Accepts(auction, cs)
       <==> cs != [] && !Blank(auction.id) && AllStand(auction, cs, |cs|) && exists c :: c in cs && Earns(c)
  {
    AllStandExactlyWhen(auction, cs, |cs|);
    TotalPositive(Net, cs);
    forall c | c in cs
      ensures 0 < Net(c) <==> Earns(c)
    {
      PaysExactlyWhen(c);
    }
    hide CleanBefore, AllStand, Earns;
  }

  /** A batch stopped by a fault is answered as the rules say. */
  lemma StoppedAnswer(auction: Auction, cs: seq<Candidate>, n: nat)
    requires n < |cs| && !Blank(auction.id) && CleanBefore(auction, cs, n) && FaultAt(auction, cs, n).Some?
    ensures var r := Answer(auction, cs);
      && AllStand(auction, cs, n)
      && (r.Err? ==> Breaks(cs, n, r.error)) && (r.Ok? ==> !r.value.accepted && Reports(auction, cs, r.value))
  {
    FirstFaultIs(auction, cs, n);
    AllStandExactlyWhen(auction, cs, n);
    SumsAreBooks(cs[..n]);
    StandsExactlyWhen(auction, cs, n);
    hide FaultAt, CleanBefore, AllStand, Books, Sums, FirstFault, Breaks, UnderReference;
  }

  lemma CleanAnswer(auction: Auction, cs: seq<Candidate>)
    requires cs != [] && !Blank(auction.id) && CleanBefore(auction, cs, |cs|)
    ensures var r := Answer(auction, cs); r.Ok? && Reports(auction, cs, r.value)
  {
    FirstFaultIs(auction, cs, |cs|);
    AllStandExactlyWhen(auction, cs, |cs|);
    SumsAreBooks(cs);
    assert cs[..|cs|] == cs;
    hide FaultAt, CleanBefore, AllStand, Books, Sums, FirstFault, UnderReference;
  }

  /** The answer, told without the scorer's own functions. */
  lemma AnswerIsPlain(auction: Auction, cs: seq<Candidate>)
    ensures var r := Answer(auction, cs);
      && (r == Err(NoFills) <==> cs == [])
      && (r == Err(NoId) <==> cs != [] && Blank(auction.id))
      && (r.Err? && cs != [] && !Blank(auction.id) ==>
            exists n: nat :: n < |cs| && AllStand(auction, cs, n) && Breaks(cs, n, r.error))
      && (r.Ok? ==> Reports(auction, cs, r.value))
  {
    if cs != [] && !Blank(auction.id) {
      var n := FirstFault(auction, cs, 0);
      if n < |cs| {
        StoppedAnswer(auction, cs, n);
      } else {
        CleanAnswer(auction, cs);
      }
      hide AllStand, Reports, CleanBefore, FaultAt, Verdict;
    }
  }

  predicate Accepts(auction: Auction, cs: seq<Candidate>)
  {
    cs != [] && !Blank(auction.id) && CleanBefore(auction, cs, |cs|) && 0 < Sums(cs).3
  }

  lemma AnswerAccepts(auction: Auction, cs: seq<Candidate>)
    ensures Answer(auction, cs).Ok? && Answer(auction, cs).value.accepted <==> Accepts(auction, cs)
  {
    if Accepts(auction, cs) {
      FirstFaultIs(auction, cs, |cs|);
    }
    hide Sums;
  }

  // ------------------------------------------------------------------
  // Exactly what is accepted
  // ------------------------------------------------------------------

  predicate DistinctOrders(cs: seq<Candidate>)
  {
    forall i, j :: 0 <= i < j < |cs| ==> cs[i].uid != cs[j].uid
  }

  predicate Sane(auction: Auction, c: Candidate)
  {
    c.sell != c.buy && c.riskBps <= 10_000 && Fair(auction, c)
  }

  /** The fill earns more than its gas and its expected revert loss together. */
  predicate Pays(c: Candidate)
  {
    c.gas + Loss(c) < c.surplus
  }

  lemma {:induction false} TotalPositive(f: Candidate -> nat, cs: seq<Candidate>)
    ensures 0 < Total(f, cs) <==> exists c :: c in cs && 0 < f(c)
    decreases |cs|
  {
    if cs != [] {
      TotalPositive(f, cs[..|cs| - 1]);
      assert cs == cs[..|cs| - 1] + [cs[|cs| - 1]];
      if 0 < f(cs[|cs| - 1]) {
        assert cs[|cs| - 1] in cs;
      }
    }
  }

  lemma CleanExactlyWhen(auction: Auction, cs: seq<Candidate>)
    ensures CleanBefore(auction, cs, |cs|) <==> DistinctOrders(cs) && (forall c :: c in cs ==> Sane(auction, c))
  {
    if CleanBefore(auction, cs, |cs|) {
      forall i, j | 0 <= i < j < |cs|
        ensures cs[i].uid != cs[j].uid
      {
        assert FaultAt(auction, cs, j) == None;
      }
      forall c | c in cs
        ensures Sane(auction, c)
      {
        var i :| 0 <= i < |cs| && cs[i] == c;
        assert FaultAt(auction, cs, i) == None;
      }
    }
    if DistinctOrders(cs) && (forall c :: c in cs ==> Sane(auction, c)) {
      forall i | 0 <= i < |cs|
        ensures FaultAt(auction, cs, i) == None
      {
        assert cs[i] in cs && Sane(auction, cs[i]);
      }
    }
  }

  /** A batch is accepted exactly when it names an auction and a fill, every order is filled once,
      every fill is sane and meets its reference, and some fill pays. */
  lemma AcceptedExactlyWhen(auction: Auction, cs: seq<Candidate>)
    ensures Accepts(auction, cs)
       <==> cs != [] && !Blank(auction.id) && DistinctOrders(cs) && (forall c :: c in cs ==> Sane(auction, c))
            && exists c :: c in cs && Pays(c)
  {
    CleanExactlyWhen(auction, cs);
    TotalPositive(Net, cs);
    hide CleanBefore, Sane;
    assert forall c :: c in cs ==> (0 < Net(c) <==> Pays(c));
  }

  // ------------------------------------------------------------------
  // Order
  // ------------------------------------------------------------------

  lemma {:induction false} TotalWithout(f: Candidate -> nat, cs: seq<Candidate>, k: nat)
    requires k < |cs|
    ensures Total(f, cs) == f(cs[k]) + Total(f, cs[..k] + cs[k + 1..])
    decreases |cs|
  {
    var n := |cs| - 1;
    if k == n {
      assert cs[..k] + cs[k + 1..] == cs[..n];
    } else {
      TotalWithout(f, cs[..n], k);
      var rest := cs[..k] + cs[k + 1..];
      assert rest[..|rest| - 1] == cs[..n][..k] + cs[..n][k + 1..];
      assert rest[|rest| - 1] == cs[n];
    }
  }

  lemma {:induction false} TotalIgnoresOrder(f: Candidate -> nat, a: seq<Candidate>, b: seq<Candidate>)
    requires multiset(a) == multiset(b)
    ensures Total(f, a) == Total(f, b)
    decreases |a|
  {
    if a == [] {
      assert |b| == |multiset(b)| == 0;
    } else {
      var n := |a| - 1;
      var k := WhereLastIs(a, b);
      TotalIgnoresOrder(f, a[..n], b[..k] + b[k + 1..]);
      TotalWithout(f, b, k);
    }
  }

  /** The last fill of one order, found in another; what is left are the same fills. */
  lemma WhereLastIs(a: seq<Candidate>, b: seq<Candidate>) returns (k: nat)
    requires multiset(a) == multiset(b) && a != []
    ensures k < |b| && b[k] == a[|a| - 1] && multiset(a[..|a| - 1]) == multiset(b[..k] + b[k + 1..])
  {
    var n := |a| - 1;
    assert a == a[..n] + [a[n]];
    assert a[n] in multiset(b);
    k :| 0 <= k < |b| && b[k] == a[n];
    TakenOut(b, k);
    TakenOut(a, n);
    assert a[n + 1..] == [] && a[..n] + [] == a[..n];
  }

  lemma TakenOut(cs: seq<Candidate>, k: nat)
    requires k < |cs|
    ensures multiset(cs[..k] + cs[k + 1..]) == multiset(cs) - multiset{cs[k]}
  {
    assert cs == cs[..k] + [cs[k]] + cs[k + 1..];
  }

  lemma Twice(cs: seq<Candidate>, i: nat, j: nat)
    requires i < j < |cs|
    ensures multiset{cs[i], cs[j]} <= multiset(cs)
  {
    assert cs == cs[..i] + [cs[i]] + cs[i + 1..j] + [cs[j]] + cs[j + 1..];
  }

  lemma {:induction false} DistinctCountsOnce(cs: seq<Candidate>, c: Candidate)
    requires DistinctOrders(cs)
    ensures multiset(cs)[c] <= 1
    decreases |cs|
  {
    if cs != [] {
      var n := |cs| - 1;
      assert cs == cs[..n] + [cs[n]];
      DistinctCountsOnce(cs[..n], c);
      assert cs[n] == c ==> c !in cs[..n];
    }
  }

  lemma NotTwice(bag: multiset<Candidate>, x: Candidate, y: Candidate)
    requires multiset{x, y} <= bag && bag[x] <= 1
    ensures x != y && x in bag && y in bag
  {
    assert multiset{x, y}[x] <= bag[x];
    assert 0 < multiset{x, y}[y];
  }

  lemma DistinctIgnoresOrder(a: seq<Candidate>, b: seq<Candidate>)
    requires multiset(a) == multiset(b) && DistinctOrders(a)
    ensures DistinctOrders(b)
  {
    forall i, j | 0 <= i < j < |b|
      ensures b[i].uid != b[j].uid
    {
      Twice(b, i, j);
      DistinctCountsOnce(a, b[i]);
      NotTwice(multiset(a), b[i], b[j]);
      var k :| 0 <= k < |a| && a[k] == b[i];
      var l :| 0 <= l < |a| && a[l] == b[j];
      assert k != l;
    }
  }

  /** The order of the fills changes neither acceptance nor any sum. */
  lemma OrderDoesNotMatter(auction: Auction, a: seq<Candidate>, b: seq<Candidate>)
    requires multiset(a) == multiset(b)
    ensures Accepts(auction, a) <==> Accepts(auction, b)
    ensures Sums(a) == Sums(b)
  {
    TotalIgnoresOrder((c: Candidate) => c.surplus, a, b);
    TotalIgnoresOrder((c: Candidate) => c.gas, a, b);
    TotalIgnoresOrder(Loss, a, b);
    TotalIgnoresOrder(Net, a, b);
    AcceptedExactlyWhen(auction, a);
    AcceptedExactlyWhen(auction, b);
    if DistinctOrders(a) { DistinctIgnoresOrder(a, b); }
    if DistinctOrders(b) { DistinctIgnoresOrder(b, a); }
    assert forall c :: c in a <==> c in multiset(a);
    assert forall c :: c in b <==> c in multiset(b);
    assert a == [] <==> |multiset(a)| == 0;
    assert b == [] <==> |multiset(b)| == 0;
  }

  // ------------------------------------------------------------------
  // How a batch is turned down
  // ------------------------------------------------------------------

  /** What a batch is answered when it opens with this fault. */
  function OpeningAnswer(auction: Auction, fault: Fault, size: nat): Result<Score, Refusal>
  {
    match fault
    case Refused(refusal) => Err(refusal)
    case Unfair(key) => Ok(Score(auction.id, false, true, size, 0, 0, 0, 0, Some(BelowReference(key))))
  }

  lemma FaultyFirst(auction: Auction, cs: seq<Candidate>)
    requires cs != [] && !Blank(auction.id) && Intrinsic(auction, cs[0]).Some?
    ensures Answer(auction, cs) == OpeningAnswer(auction, Intrinsic(auction, cs[0]).value, |cs|)
  {
    FirstFaultIs(auction, cs, 0);
  }

  lemma TotalOfOne(f: Candidate -> nat, c: Candidate)
    ensures Total(f, [c]) == f(c)
  {
    assert [c][..0] == [];
  }

  lemma CleanThenFaulty(auction: Auction, cs: seq<Candidate>)
    requires 2 <= |cs| && !Blank(auction.id) && Intrinsic(auction, cs[0]) == None
    ensures cs[0].uid == cs[1].uid ==> Answer(auction, cs) == Err(Repeated)
    ensures cs[0].uid != cs[1].uid && Intrinsic(auction, cs[1]).Some? && Intrinsic(auction, cs[1]).value.Unfair? ==>
              Answer(auction, cs).Ok? && Answer(auction, cs).value.gross == cs[0].surplus
              && Answer(auction, cs).value.gas == cs[0].gas
  {
    if cs[0].uid == cs[1].uid || Intrinsic(auction, cs[1]).Some? {
      assert FaultAt(auction, cs, 0) == None;
      FirstFaultIs(auction, cs, 1);
      assert cs[..1] == [cs[0]];
      TotalOfOne((c: Candidate) => c.surplus, cs[0]);
      TotalOfOne((c: Candidate) => c.gas, cs[0]);
    }
  }

  /** `c` and `d` are two of the fills (two copies, if they are equal). */
  predicate Both(cs: seq<Candidate>, c: Candidate, d: Candidate)
  {
    multiset{c, d} <= multiset(cs)
  }

  lemma PutFirst(cs: seq<Candidate>, c: Candidate) returns (rest: seq<Candidate>)
    requires c in cs
    ensures multiset([c] + rest) == multiset(cs)
  {
    var k :| 0 <= k < |cs| && cs[k] == c;
    rest := cs[..k] + cs[k + 1..];
    TakenOut(cs, k);
  }

  lemma PutBothFirst(cs: seq<Candidate>, c: Candidate, d: Candidate) returns (other: seq<Candidate>)
    requires Both(cs, c, d)
    ensures 2 <= |other| && other[0] == c && other[1] == d && multiset(other) == multiset(cs)
  {
    assert multiset{c, d}[c] <= multiset(cs)[c] && multiset{c, d}[d] <= multiset(cs)[d];
    var rest := PutFirst(cs, c);
    assert multiset(rest) == multiset(cs) - multiset{c};
    assert d in multiset(rest);
    var tail := PutFirst(rest, d);
    other := [c, d] + tail;
    assert [c] + ([d] + tail) == other;
    assert multiset([c] + ([d] + tail)) == multiset{c} + multiset([d] + tail);
  }

  /** Whatever the order of the fills, the answer is the same. */
  ghost predicate Alike(auction: Auction, cs: seq<Candidate>)
  {
    forall other :: multiset(other) == multiset(cs) ==> Answer(auction, other) == Answer(auction, cs)
  }

  predicate AllSane(auction: Auction, cs: seq<Candidate>)
  {
    forall c :: c in cs ==> Intrinsic(auction, c) == None
  }

  predicate BelowItsReference(auction: Auction, c: Candidate)
  {
    Intrinsic(auction, c).Some? && Intrinsic(auction, c).value.Unfair?
  }

  /** Only one thing is wrong with the fills; none that is right repeats an order; and with a fill
      below its reference the ones that are right add nothing to the sums. */
  ghost predicate OneFault(auction: Auction, cs: seq<Candidate>)
  {
    && (forall c, d :: c in cs && d in cs && Intrinsic(auction, c).Some? && Intrinsic(auction, d).Some? ==>
          Intrinsic(auction, c) == Intrinsic(auction, d))
    && (forall c, d :: Both(cs, c, d) && c.uid == d.uid ==> Intrinsic(auction, c).Some?)
    && (forall c, d :: c in cs && d in cs && Intrinsic(auction, c) == None && BelowItsReference(auction, d) ==>
          c.surplus == 0 && c.gas == 0)
  }

  lemma SaneAlike(auction: Auction, a: seq<Candidate>, b: seq<Candidate>)
    requires multiset(a) == multiset(b) && a != [] && !Blank(auction.id) && AllSane(auction, a)
    ensures Answer(auction, a) == Answer(auction, b)
  {
    SameFills(a, b);
    OrderDoesNotMatter(auction, a, b);
    SaneAnswer(auction, a);
    SaneAnswer(auction, b);
    if DistinctOrders(a) { DistinctIgnoresOrder(a, b); }
    if DistinctOrders(b) { DistinctIgnoresOrder(b, a); }
    hide Answer;
  }

  lemma SameFills(a: seq<Candidate>, b: seq<Candidate>)
    requires multiset(a) == multiset(b)
    ensures |a| == |b| && forall c :: c in a <==> c in b
  {
    assert |a| == |multiset(a)| == |multiset(b)| == |b|;
    assert forall c :: c in a <==> c in multiset(a);
    assert forall c :: c in b <==> c in multiset(b);
  }

  lemma SaneAnswer(auction: Auction, cs: seq<Candidate>)
    requires cs != [] && !Blank(auction.id) && AllSane(auction, cs)
    ensures Answer(auction, cs) == if DistinctOrders(cs) then Verdict(auction, cs, |cs|) else Err(Repeated)
  {
    var n := FirstFault(auction, cs, 0);
    if n < |cs| {
      assert cs[n] in cs;
    } else {
      CleanExactlyWhen(auction, cs);
    }
  }

  lemma OneFaultAnswer(auction: Auction, cs: seq<Candidate>, e: Candidate)
    requires !Blank(auction.id) && OneFault(auction, cs) && e in cs && Intrinsic(auction, e).Some?
    ensures Answer(auction, cs) == OpeningAnswer(auction, Intrinsic(auction, e).value, |cs|)
  {
    var n := FirstFault(auction, cs, 0);
    var k :| 0 <= k < |cs| && cs[k] == e;
    assert k < n ==> FaultAt(auction, cs, k) == None;
    assert n < |cs| && cs[n] in cs;
    forall j | 0 <= j < n
      ensures Intrinsic(auction, cs[j]) == None && cs[j].uid != cs[n].uid
    {
      assert FaultAt(auction, cs, j) == None;
      Twice(cs, j, n);
      assert Both(cs, cs[j], cs[n]);
    }
    assert FaultAt(auction, cs, n) == Intrinsic(auction, e);
    if Intrinsic(auction, e).value.Unfair? {
      forall c | c in cs[..n]
        ensures c.surplus == 0 && c.gas == 0
      {
        var j :| 0 <= j < n && cs[..n][j] == c;
        assert c in cs && Intrinsic(auction, cs[j]) == None;
      }
      NothingSums(cs[..n]);
    }
  }

  lemma NothingSums(cs: seq<Candidate>)
    requires forall c :: c in cs ==> c.surplus == 0 && c.gas == 0
    ensures Sums(cs) == (0, 0, 0, 0)
  {
    TotalPositive((c: Candidate) => c.surplus, cs);
    TotalPositive((c: Candidate) => c.gas, cs);
    forall c | c in cs
      ensures Loss(c) == 0 && Net(c) == 0
    {
      assert 0 * c.riskBps == 0;
    }
    TotalPositive(Loss, cs);
    TotalPositive(Net, cs);
  }

  lemma OneFaultIgnoresOrder(auction: Auction, a: seq<Candidate>, b: seq<Candidate>)
    requires multiset(a) == multiset(b) && OneFault(auction, a)
    ensures OneFault(auction, b)
  {
    SameFills(a, b);
    assert forall c, d :: Both(a, c, d) <==> Both(b, c, d);
    hide Intrinsic, Both;
  }

  lemma AlikeMeansOneFault(auction: Auction, cs: seq<Candidate>, e: Candidate)
    requires !Blank(auction.id) && Alike(auction, cs) && e in cs && Intrinsic(auction, e).Some?
    ensures OneFault(auction, cs)
  {
    OpensWith(auction, cs, e);
    forall c | c in cs && Intrinsic(auction, c).Some?
      ensures Intrinsic(auction, c) == Intrinsic(auction, e)
    {
      OpensWith(auction, cs, c);
    }
    forall c, d | Both(cs, c, d) && Intrinsic(auction, c) == None
      ensures c.uid != d.uid
      ensures BelowItsReference(auction, d) ==> c.surplus == 0 && c.gas == 0
    {
      var other := PutBothFirst(cs, c, d);
      CleanThenFaulty(auction, other);
      assert Answer(auction, other) == Answer(auction, cs);
    }
    forall c, d | c in cs && d in cs && c != d
      ensures Both(cs, c, d)
    {
    }
    hide Intrinsic, Both, Answer;
  }

  lemma OpensWith(auction: Auction, cs: seq<Candidate>, c: Candidate)
    requires !Blank(auction.id) && Alike(auction, cs) && c in cs && Intrinsic(auction, c).Some?
    ensures Answer(auction, cs) == OpeningAnswer(auction, Intrinsic(auction, c).value, |cs|)
  {
    var rest := PutFirst(cs, c);
    SameFills(cs, [c] + rest);
    FaultyFirst(auction, [c] + rest);
  }

  /** The order of the fills never matters to the answer exactly when there is nothing to look at,
      or nothing is wrong with any fill on its own, or only one thing is. */
  lemma AlikeExactlyWhen(auction: Auction, cs: seq<Candidate>)
    ensures Alike(auction, cs) <==> cs == [] || Blank(auction.id) || AllSane(auction, cs) || OneFault(auction, cs)
  {
    if cs == [] || Blank(auction.id) || AllSane(auction, cs) || OneFault(auction, cs) {
      forall other | multiset(other) == multiset(cs)
        ensures Answer(auction, other) == Answer(auction, cs)
      {
        SameFills(cs, other);
        if cs != [] && !Blank(auction.id) {
          if AllSane(auction, cs) {
            SaneAlike(auction, cs, other);
          } else {
            var e :| e in cs && Intrinsic(auction, e) != None;
            OneFaultIgnoresOrder(auction, cs, other);
            OneFaultAnswer(auction, cs, e);
            OneFaultAnswer(auction, other, e);
          }
        }
      }
    } else if Alike(auction, cs) {
      var e :| e in cs && Intrinsic(auction, e) != None;
      AlikeMeansOneFault(auction, cs, e);
    }
  }

  /** Two orders of one batch that are turned down differently, one as an error, one with a score. */
  lemma OrderDecidesTheRefusal(id: string) returns (auction: Auction, a: seq<Candidate>, b: seq<Candidate>)
    requires !Blank(id)
    ensures multiset(a) == multiset(b) && auction.id == id
    ensures Answer(auction, a) == Err(SelfPair)
    ensures Answer(auction, b) == Ok(Score(id, false, true, 2, 0, 0, 0, 0, Some(BelowReference((1, 2)))))
  {
    var loop, cheap := Candidate(1, 1, 1, 0, 0, 0, 0), Candidate(2, 1, 2, 0, 0, 0, 0);
    auction := Auction(id, map[(1, 2) := 1]);
    a, b := [loop, cheap], [cheap, loop];
    FaultyFirst(auction, a);
    FaultyFirst(auction, b);
  }

  // ------------------------------------------------------------------
  // Width
  // ------------------------------------------------------------------

  lemma {:induction false} TotalGrows(f: Candidate -> nat, cs: seq<Candidate>, n: nat)
    requires n <= |cs|
    ensures Total(f, cs[..n]) <= Total(f, cs)
    decreases |cs|
  {
    if n == |cs| {
      assert cs[..n] == cs;
    } else {
      assert cs[..|cs| - 1][..n] == cs[..n];
      TotalGrows(f, cs[..|cs| - 1], n);
    }
  }

  lemma {:induction false} TotalBelow(f: Candidate -> nat, g: Candidate -> nat, cs: seq<Candidate>)
    requires forall c :: c in cs ==> f(c) <= g(c)
    ensures Total(f, cs) <= Total(g, cs)
    decreases |cs|
  {
    if cs != [] {
      var init := cs[..|cs| - 1];
      assert cs == init + [cs[|cs| - 1]];
      TotalBelow(f, g, init);
    }
  }

  lemma LossBelowSurplus(c: Candidate)
    requires c.riskBps <= 10_000
    ensures Loss(c) <= c.surplus && Net(c) <= c.surplus && c.surplus * c.riskBps <= c.surplus * 10_000
  {
    MulMono(c.riskBps, 10_000, c.surplus);
    QuotBounds(c.surplus * c.riskBps, 10_000);
    MulCancel(Loss(c), c.surplus, 10_000);
  }

  /** When the surpluses weighted by 10000 and the gas costs each fit 256 bits, so does every
      intermediate value, after every prefix of a sane batch. */
  lemma NothingOverflows(auction: Auction, cs: seq<Candidate>, n: nat)
    requires n <= |cs| && CleanBefore(auction, cs, |cs|)
    requires Sums(cs).0 * 10_000 <= U256_MAX && Sums(cs).1 <= U256_MAX
    ensures var (gross, gas, loss, net) := Sums(cs[..n]);
      gross <= U256_MAX && gas <= U256_MAX && loss <= gross && net <= gross
    ensures n < |cs| ==> cs[n].surplus * cs[n].riskBps <= U256_MAX
  {
    CleanExactlyWhen(auction, cs);
    var surplus := (c: Candidate) => c.surplus;
    TotalGrows(surplus, cs, n);
    TotalGrows((c: Candidate) => c.gas, cs, n);
    forall c | c in cs[..n]
      ensures Loss(c) <= surplus(c) && Net(c) <= surplus(c)
    {
      assert c in cs;
      LossBelowSurplus(c);
    }
    TotalBelow(Loss, surplus, cs[..n]);
    TotalBelow(Net, surplus, cs[..n]);
    if n < |cs| {
      assert cs[n] in cs;
      LossBelowSurplus(cs[n]);
      TotalGrows(surplus, cs, n + 1);
      assert cs[..n + 1][..n] == cs[..n];
    }
  }
}
