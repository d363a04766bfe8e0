/** Attempt-once failover (internal/gateway/router.go:279-454), EVM side. */
module Router {
  import opened Wrappers
  import opened Headers
  import opened EvmUtils

  // The decoded inclusion fields of a transaction receipt.
  datatype Receipt = Receipt(transactionHash: Hash, blockHash: Hash, blockNumber: string)

  // The block a well-formed receipt of the requested transaction names.
  function GetEVMReceiptBlock(receipt: Receipt, transactionHash: Hash): (block: Option<Head>)
    ensures block.Some? <==> IsEVMHash(receipt.transactionHash) && receipt.transactionHash == transactionHash
                             && IsEVMHash(receipt.blockHash) && ParseEVMQuantity(receipt.blockNumber).Ok?
    ensures block.Some? ==>
              && block.value.hash == receipt.blockHash
              && FormatEVMQuantity(block.value.number) == Lower(receipt.blockNumber)
  {
    if !IsEVMHash(receipt.transactionHash) || receipt.transactionHash != transactionHash
        || !IsEVMHash(receipt.blockHash) then None
    else
      var number := ParseEVMQuantity(receipt.blockNumber);
      if number.Err? then None
      else
        FormatParsedQuantity(receipt.blockNumber);
        Some(NO_HEAD.(number := number.value, hash := receipt.blockHash))
  }

  // The receipt is one of the transaction, with a well-formed block hash and number.
  predicate Includes(receipt: Receipt, transactionHash: Hash) {
    && IsEVMHash(receipt.transactionHash) && receipt.transactionHash == transactionHash
    && IsEVMHash(receipt.blockHash) && ParseEVMQuantity(receipt.blockNumber).Ok?
  }

  datatype Payload = Null | Found(receipt: Receipt) | Other(text: string)

  datatype CallResult = TransportError | MethodNotFound | BlockUnavailable | RpcFailure(code: int) | Answer(payload: Payload)

  // One provider as the router meets it in one round: capabilities, target probe, boundary checks around
  // the data call, the call's result, and whether the result matches the target.
  datatype Candidate = Candidate(id: string, supports: bool, supportsPinned: bool, hasTarget: bool,
                                 boundaryBefore: bool, result: CallResult, matchesTarget: bool, boundaryAfter: bool)

  // A receipt request carries its transaction hash and the pinned head as target.
  datatype Request = Request(receiptHash: Option<Hash>, target: Option<Head>, requireEIP1898: bool, boundaries: bool)

  predicate WellFormed(request: Request) {
    request.receiptHash.Some? ==> request.target.Some? && !request.boundaries && !request.requireEIP1898
  }

  datatype RouteError = Upstream(code: int) | NoEligibleUpstream | DeadlinePassed | HeadUnavailable

  predicate Skipped(c: Candidate, request: Request, attempted: set<string>) {
    || c.id in attempted || !c.supports
    || (request.requireEIP1898 && !c.supportsPinned)
    || (request.target.Some? && request.receiptHash.None? && !c.hasTarget)
  }

  // The answer is accepted as one about the request's target.
  predicate Answers(c: Candidate, request: Request) {
    c.result.Answer? && (request.target.Some? ==> c.matchesTarget)
  }

  // Absent, or included above the pinned head: not visible to this request.
  predicate Invisible(c: Candidate, request: Request)
    requires request.receiptHash.Some? && request.target.Some?
  {
    && Answers(c, request)
    && match c.result.payload
       case Null => true
       case Found(receipt) =>
         var block := GetEVMReceiptBlock(receipt, request.receiptHash.value);
         block.Some? && block.value.number > request.target.value.number
       case Other(_) => false
  }

  // A payload the router may hand back.
  predicate Usable(c: Candidate, request: Request) {
    && Answers(c, request)
    && (request.boundaries ==> c.boundaryBefore && c.boundaryAfter)
    && (request.receiptHash.Some? && request.target.Some? ==>
          && c.result.payload.Found?
          && var block := GetEVMReceiptBlock(c.result.payload.receipt, request.receiptHash.value);
             block.Some? && block.value.number <= request.target.value.number)
  }

  // No provider is asked twice.
  predicate AskedOnce(asked: seq<Candidate>) {
    forall i, j | 0 <= i < j < |asked| :: asked[i].id != asked[j].id
  }

  function Ids(candidates: seq<Candidate>): set<string> {
    set c | c in candidates :: c.id
  }

  // A candidate that may receive the data call.
  predicate Askable(c: Candidate, request: Request) {
    !Skipped(c, request, {}) && (request.boundaries ==> c.boundaryBefore)
  }

  // A candidate that is given up because its boundaries do not match.
  predicate Declined(c: Candidate, request: Request) {
    !Skipped(c, request, {}) && request.boundaries && !c.boundaryBefore
  }

  // Who was attempted: exactly those who were asked and those who were declined.
  ghost predicate Accounted(request: Request, attempted: set<string>, asked: seq<Candidate>, declined: seq<Candidate>) {
    && attempted == Ids(asked) + Ids(declined)
    && AskedOnce(asked) && Ids(asked) !! Ids(declined)
    && (forall c | c in asked :: Askable(c, request)) && (forall c | c in declined :: Declined(c, request))
  }

  // The receipt quorum: somebody says it is not visible, and everybody who knows the method agrees.
  predicate AgreedInvisible(asked: seq<Candidate>, request: Request)
    requires request.receiptHash.Some? && request.target.Some?
  {
    && (exists c | c in asked :: Invisible(c, request))
    && (forall c | c in asked :: Invisible(c, request) || c.result.MethodNotFound?)
  }

  // What an answer is worth: usable, nothing visible to this request, or no evidence at all.
  datatype Verdict = Good | Nothing | Worthless

  // The checks on an answer, in the router's order.
  method Examine(request: Request, c: Candidate) returns (verdict: Verdict)
    requires WellFormed(request) && c.result.Answer? && (request.boundaries ==> c.boundaryBefore)
    ensures verdict.Good? <==> Usable(c, request)
    ensures verdict.Nothing? <==> request.receiptHash.Some? && Invisible(c, request)
    ensures verdict.Good? <==>
              && (request.target.Some? ==> c.matchesTarget) && (request.boundaries ==> c.boundaryAfter)
              && (request.receiptHash.Some? ==>
                    && c.result.payload.Found? && Includes(c.result.payload.receipt, request.receiptHash.value)
                    && ParseEVMQuantity(c.result.payload.receipt.blockNumber).value <= request.target.value.number)
    ensures verdict.Nothing? <==>
              && request.receiptHash.Some? && c.matchesTarget
              && (|| c.result.payload.Null?
                  || (&& c.result.payload.Found? && Includes(c.result.payload.receipt, request.receiptHash.value)
                      && ParseEVMQuantity(c.result.payload.receipt.blockNumber).value > request.target.value.number))
  {
    var payload := c.result.payload;
    if request.target.Some? && !c.matchesTarget {
      return Worthless;
    }
    if request.receiptHash.Some? {
      if payload.Null? {
        return Nothing;
      }
      var block := if payload.Found? then GetEVMReceiptBlock(payload.receipt, request.receiptHash.value) else None;
      if block.None? {
        return Worthless;
      }
      if block.value.number > request.target.value.number {
        return Nothing;
      }
    }
    if request.boundaries && !c.boundaryAfter {
      return Worthless;
    }
    verdict := Good;
  }

  // Where a round stands: who was attempted so far, who of them received the data call, and the counters.
  datatype Progress = Progress(attempted: set<string>, asked: seq<Candidate>, declined: seq<Candidate>,
                               eligible: nat, nullReceipts: nat, nullUpstream: string)

  // The asked and declined candidates of a round that began with `start` are among these.
  ghost predicate Listed(start: Progress, p: Progress, candidates: seq<Candidate>) {
    && start.asked <= p.asked && start.declined <= p.declined
    && From(p.asked[|start.asked|..], candidates) && From(p.declined[|start.declined|..], candidates)
  }

  // The counters of a round that began with `start`.
  ghost predicate Counted(request: Request, start: Progress, p: Progress)
    requires WellFormed(request) && start.asked <= p.asked
  {
    && Fruitless(request, p.asked[|start.asked|..])
    && (request.receiptHash.Some? ==> Tally(request, p.asked[|start.asked|..], p.eligible, p.nullReceipts))
    && (request.receiptHash.None? ==> |p.attempted| == |start.attempted| + p.eligible)
  }

  // A round that began with `start` and has come through these candidates without a result.
  ghost predicate Underway(request: Request, start: Progress, p: Progress, candidates: seq<Candidate>)
    requires WellFormed(request)
  {
    && Listed(start, p, candidates) && Counted(request, start, p)
    && Accounted(request, p.attempted, p.asked, p.declined) && Exhausted(request, candidates, p.attempted)
  }

  predicate From(some: seq<Candidate>, candidates: seq<Candidate>) {
    forall c | c in some :: c in candidates
  }

  // One pass over the candidates of a round.
  method RunRound(request: Request, candidates: seq<Candidate>, attempted: set<string>, asked: seq<Candidate>,
        declined: seq<Candidate>)
    returns (result: Option<Result<(Payload, string), RouteError>>, p: Progress)
    requires WellFormed(request) && Accounted(request, attempted, asked, declined)
    ensures Listed(Progress(attempted, asked, declined, 0, 0, ""), p, candidates)
              && Accounted(request, p.attempted, p.asked, p.declined)
    ensures result.Some? ==>
              && |p.asked| > |asked| && FirstAnswer(request, asked, p, candidates)
              && Returned(request, p.asked[|p.asked| - 1], result.value)
    ensures result.None? ==> Underway(request, Progress(attempted, asked, declined, 0, 0, ""), p, candidates)
  {
    hide Underway, Listed, Counted, Accounted, Returned, Exhausted, Fruitless;
    p := Progress(attempted, asked, declined, 0, 0, "");
    ghost var start := p;
    RoundStarts(request, start);
    assert candidates[..0] == [];
    for i := 0 to |candidates|
      invariant Underway(request, start, p, candidates[..i])
    {
      result, p := Visit(request, start, p, candidates, i);
      if result.Some? {
        return;
      }
    }
    assert candidates[..|candidates|] == candidates;
    UnderwayParts(request, start, p, candidates);
    result := None;
  }

  // The loop body of a round.
  method Visit(request: Request, ghost start: Progress, p0: Progress, candidates: seq<Candidate>, i: nat)
    returns (result: Option<Result<(Payload, string), RouteError>>, p: Progress)
    requires WellFormed(request) && i < |candidates| && Underway(request, start, p0, candidates[..i])
    ensures result.None? ==> Underway(request, start, p, candidates[..i + 1])
    ensures result.Some? ==>
              && Listed(start, p, candidates) && Accounted(request, p.attempted, p.asked, p.declined)
              && FirstAnswer(request, start.asked, p, candidates)
              && Returned(request, p.asked[|p.asked| - 1], result.value)
  {
    var c := candidates[i];
    assert candidates[..i + 1] == candidates[..i] + [c];
    hide Underway, Listed, Counted, Accounted, Exhausted, Usable, Skipped, Askable, Returned;
    if Skipped(c, request, p0.attempted) {
      SkipKeeps(request, start, p0, candidates[..i], c);
      return None, p0;
    }
    result, p := Attempt(request, start, p0, candidates[..i], c);
    if result.Some? {
      UnderwayParts(request, start, p0, candidates[..i]);
      RoundEnds(request, start, p0, p, candidates, i);
      AnswerIsFirst(request, start, p0, p, candidates, i);
    }
  }

  // The last provider asked is the first of its round that anything came of: nobody asked before it in the round had
  // a usable answer or an error to hand back, and everybody listed before it had been attempted or skipped.
  ghost predicate FirstAnswer(request: Request, before: seq<Candidate>, p: Progress, candidates: seq<Candidate>) {
    && |p.asked| > |before| && Fruitless(request, p.asked[|before|..|p.asked| - 1])
    && exists i | 0 <= i < |candidates| ::
         candidates[i] == p.asked[|p.asked| - 1] && Exhausted(request, candidates[..i], p.attempted)
  }

  // What ends a request: the last asked candidate's usable answer or its error.
  ghost predicate Returned(request: Request, last: Candidate, r: Result<(Payload, string), RouteError>) {
    match r
    case Ok(answer) => Usable(last, request) && answer == (last.result.payload, last.id)
    case Err(e) => e.Upstream? && last.result == RpcFailure(e.code)
  }

  // One candidate that may be attempted.
  method Attempt(request: Request, ghost start: Progress, p0: Progress, ghost earlier: seq<Candidate>, c: Candidate)
    returns (result: Option<Result<(Payload, string), RouteError>>, p: Progress)
    requires WellFormed(request) && Underway(request, start, p0, earlier) && !Skipped(c, request, p0.attempted)
    ensures result.None? ==> Underway(request, start, p, earlier + [c])
    ensures result.Some? ==>
              && p.attempted == p0.attempted + {c.id} && p.asked == p0.asked + [c] && p.declined == p0.declined
              && Askable(c, request) && Returned(request, c, result.value)
  {
    p := p0.(eligible := p0.eligible + 1, attempted := p0.attempted + {c.id});
    if request.boundaries && !c.boundaryBefore {
      p := p.(declined := p.declined + [c]);
      DeclineKeeps(request, start, p0, p, earlier, c);
      return None, p;
    }
    p := p.(asked := p.asked + [c]);
    hide Underway;
    match c.result {
      case RpcFailure(code) => return Some(Err(Upstream(code))), p;
      case Answer(payload) =>
        var verdict := Examine(request, c);
        if verdict.Nothing? {
          p := p.(nullReceipts := p.nullReceipts + 1, nullUpstream := c.id);
        }
        if verdict.Good? {
          return Some(Ok((payload, c.id))), p;
        }
      case MethodNotFound =>
        NoAnswer(request, c);
        if request.receiptHash.Some? {
          p := p.(eligible := p.eligible - 1);
        }
      case TransportError => NoAnswer(request, c);
      case BlockUnavailable => NoAnswer(request, c);
    }
    AskKeeps(request, start, p0, p, earlier, c);
    result := None;
  }

  lemma RoundStarts(request: Request, start: Progress)
    requires WellFormed(request) && Accounted(request, start.attempted, start.asked, start.declined)
    requires start.eligible == start.nullReceipts == 0
    ensures Underway(request, start, start, [])
  {
    hide Accounted;
    assert start.asked[|start.asked|..] == [] && start.declined[|start.declined|..] == [];
  }

  lemma UnderwayParts(request: Request, start: Progress, p: Progress, candidates: seq<Candidate>)
    requires WellFormed(request) && Underway(request, start, p, candidates)
    ensures Listed(start, p, candidates) && Counted(request, start, p)
    ensures Accounted(request, p.attempted, p.asked, p.declined) && Exhausted(request, candidates, p.attempted)
  {
  }

  lemma SkipKeeps(request: Request, start: Progress, p: Progress, earlier: seq<Candidate>, c: Candidate)
    requires WellFormed(request) && Underway(request, start, p, earlier) && Skipped(c, request, p.attempted)
    ensures Underway(request, start, p, earlier + [c])
  {
    ExhaustedStep(request, earlier, c, p.attempted, p.attempted);
    ListedStep(start, p, p, earlier, c);
    hide Listed, Counted, Accounted, Exhausted, Skipped;
  }

  lemma RoundEnds(request: Request, start: Progress, before: Progress, p: Progress, candidates: seq<Candidate>, i: nat)
    requires WellFormed(request) && i < |candidates| && Underway(request, start, before, candidates[..i])
    requires !Skipped(candidates[i], request, before.attempted) && Askable(candidates[i], request)
    requires p.attempted == before.attempted + {candidates[i].id} && p.asked == before.asked + [candidates[i]]
    requires p.declined == before.declined
    ensures Listed(start, p, candidates) && Accounted(request, p.attempted, p.asked, p.declined)
  {
    AskAccounted(request, before.attempted, before.asked, before.declined, candidates[i]);
    ListedStep(start, before, p, candidates[..i], candidates[i]);
    ListedLater(start, p, candidates[..i] + [candidates[i]], candidates);
  }

  lemma AnswerIsFirst(request: Request, start: Progress, before: Progress, p: Progress, candidates: seq<Candidate>, i: nat)
    requires WellFormed(request) && i < |candidates| && Underway(request, start, before, candidates[..i])
    requires p.asked == before.asked + [candidates[i]] && before.attempted <= p.attempted
    ensures FirstAnswer(request, start.asked, p, candidates)
  {
    ExhaustedLater(request, candidates[..i], before.attempted, p.attempted);
    assert p.asked[|start.asked|..|p.asked| - 1] == before.asked[|start.asked|..];
  }

  lemma ListedLater(start: Progress, p: Progress, some: seq<Candidate>, candidates: seq<Candidate>)
    requires Listed(start, p, some) && From(some, candidates)
    ensures Listed(start, p, candidates)
  {
  }

  // One more candidate looked at: asked, declined or skipped.
  lemma ListedStep(start: Progress, p: Progress, next: Progress, earlier: seq<Candidate>, c: Candidate)
    requires Listed(start, p, earlier)
    requires next.asked == p.asked || next.asked == p.asked + [c]
    requires next.declined == p.declined || next.declined == p.declined + [c]
    ensures Listed(start, next, earlier + [c])
  {
    var asked, declined := p.asked[|start.asked|..], p.declined[|start.declined|..];
    FromStep(asked, earlier, c);
    FromStep(declined, earlier, c);
    assert next.asked == p.asked + [c] ==> next.asked[|start.asked|..] == asked + [c];
    assert next.declined == p.declined + [c] ==> next.declined[|start.declined|..] == declined + [c];
    hide From;
  }

  lemma CountedDecline(request: Request, start: Progress, p: Progress, next: Progress, c: Candidate)
    requires WellFormed(request) && start.asked <= p.asked && Counted(request, start, p)
    requires request.receiptHash.None? && c.id !in p.attempted
    requires next.asked == p.asked && next.attempted == p.attempted + {c.id} && next.eligible == p.eligible + 1
    ensures Counted(request, start, next)
  {
    hide Fruitless;
  }

  lemma CountedAsk(request: Request, start: Progress, p: Progress, next: Progress, c: Candidate)
    requires WellFormed(request) && start.asked <= p.asked && Counted(request, start, p)
    requires !Usable(c, request) && !c.result.RpcFailure? && c.id !in p.attempted
    requires next.attempted == p.attempted + {c.id} && next.asked == p.asked + [c]
    requires next.eligible == p.eligible + if request.receiptHash.Some? && c.result.MethodNotFound? then 0 else 1
    requires next.nullReceipts == p.nullReceipts + if request.receiptHash.Some? && Invisible(c, request) then 1 else 0
    ensures Counted(request, start, next)
  {
    var before := p.asked[|start.asked|..];
    FruitlessStep(request, before, c);
    if request.receiptHash.Some? {
      TallyStep(request, before, c, p.eligible, p.nullReceipts);
    }
    hide Tally, Fruitless, Usable, Invisible;
    assert next.asked[|start.asked|..] == before + [c];
  }

  lemma IdsAppend(some: seq<Candidate>, c: Candidate)
    ensures Ids(some + [c]) == Ids(some) + {c.id}
  {
    assert forall x :: x in some + [c] <==> x in some || x == c;
  }

  lemma AskAccounted(request: Request, attempted: set<string>, asked: seq<Candidate>, declined: seq<Candidate>, c: Candidate)
    requires Accounted(request, attempted, asked, declined) && c.id !in attempted && Askable(c, request)
    ensures Accounted(request, attempted + {c.id}, asked + [c], declined)
  {
    IdsAppend(asked, c);
    forall x | x in asked
      ensures x.id in Ids(asked)
    {
    }
  }

  lemma DeclineAccounted(request: Request, attempted: set<string>, asked: seq<Candidate>, declined: seq<Candidate>, c: Candidate)
    requires Accounted(request, attempted, asked, declined) && c.id !in attempted && Declined(c, request)
    ensures Accounted(request, attempted + {c.id}, asked, declined + [c])
  {
    IdsAppend(declined, c);
  }

  lemma ExhaustedStep(request: Request, earlier: seq<Candidate>, c: Candidate, before: set<string>, after: set<string>)
    requires Exhausted(request, earlier, before) && before <= after && Skipped(c, request, after)
    ensures Exhausted(request, earlier + [c], after)
  {
  }

  lemma FromStep(some: seq<Candidate>, earlier: seq<Candidate>, c: Candidate)
    requires From(some, earlier)
    ensures From(some, earlier + [c]) && From(some + [c], earlier + [c])
  {
  }

  lemma DeclineKeeps(request: Request, start: Progress, p: Progress, next: Progress, earlier: seq<Candidate>, c: Candidate)
    requires WellFormed(request) && Underway(request, start, p, earlier)
    requires !Skipped(c, request, p.attempted) && request.boundaries && !c.boundaryBefore
    requires next == p.(eligible := p.eligible + 1, attempted := p.attempted + {c.id}, declined := p.declined + [c])
    ensures Underway(request, start, next, earlier + [c])
  {
    DeclineAccounted(request, p.attempted, p.asked, p.declined, c);
    ExhaustedStep(request, earlier, c, p.attempted, next.attempted);
    ListedStep(start, p, next, earlier, c);
    assert start.asked <= p.asked;
    CountedDecline(request, start, p, next, c);
    hide Listed, Counted, Accounted, Exhausted, Skipped;
  }

  lemma AskKeeps(request: Request, start: Progress, p: Progress, next: Progress, earlier: seq<Candidate>, c: Candidate)
    requires WellFormed(request) && Underway(request, start, p, earlier)
    requires !Skipped(c, request, p.attempted) && Askable(c, request) && !Usable(c, request) && !c.result.RpcFailure?
    requires next.attempted == p.attempted + {c.id} && next.asked == p.asked + [c] && next.declined == p.declined
    requires next.eligible == p.eligible + if request.receiptHash.Some? && c.result.MethodNotFound? then 0 else 1
    requires next.nullReceipts == p.nullReceipts + if request.receiptHash.Some? && Invisible(c, request) then 1 else 0
    ensures Underway(request, start, next, earlier + [c])
  {
    AskAccounted(request, p.attempted, p.asked, p.declined, c);
    ExhaustedStep(request, earlier, c, p.attempted, next.attempted);
    ListedStep(start, p, next, earlier, c);
    assert start.asked <= p.asked;
    CountedAsk(request, start, p, next, c);
    hide Listed, Counted, Accounted, Exhausted, Skipped, Usable, Invisible, Askable;
  }

  // Everybody who could be asked has been asked.
  predicate Exhausted(request: Request, candidates: seq<Candidate>, attempted: set<string>) {
    forall c | c in candidates :: Skipped(c, request, attempted)
  }

  // Nobody's answer could have been returned.
  predicate Fruitless(request: Request, asked: seq<Candidate>) {
    forall c | c in asked :: !Usable(c, request) && !c.result.RpcFailure?
  }

  lemma NoAnswer(request: Request, c: Candidate)
    requires WellFormed(request) && !c.result.Answer?
    ensures !Usable(c, request) && (request.receiptHash.Some? ==> !Invisible(c, request))
  {
  }

  lemma FruitlessStep(request: Request, before: seq<Candidate>, c: Candidate)
    requires Fruitless(request, before)
    ensures !Usable(c, request) && !c.result.RpcFailure? ==> Fruitless(request, before + [c])
  {
  }

  // One more provider asked.
  lemma TallyStep(request: Request, before: seq<Candidate>, c: Candidate, eligible: nat, nullReceipts: nat)
    requires WellFormed(request) && request.receiptHash.Some? && Tally(request, before, eligible, nullReceipts)
    ensures Tally(request, before + [c], eligible + if c.result.MethodNotFound? then 0 else 1,
                  nullReceipts + if Invisible(c, request) then 1 else 0)
  {
  }

  // The counters of a receipt round: providers that know the method, and those that found nothing visible.
  ghost predicate Tally(request: Request, asked: seq<Candidate>, eligible: nat, nullReceipts: nat)
    requires WellFormed(request) && request.receiptHash.Some?
  {
    && nullReceipts <= eligible
    && (nullReceipts > 0 <==> exists c | c in asked :: Invisible(c, request))
    && (nullReceipts == eligible <==> forall c | c in asked :: Invisible(c, request) || c.result.MethodNotFound?)
  }

  lemma FruitlessJoins(request: Request, before: seq<Candidate>, asked: seq<Candidate>)
    requires before <= asked && Fruitless(request, before) && Fruitless(request, asked[|before|..])
    ensures Fruitless(request, asked)
  {
  }

  lemma ExhaustedLater(request: Request, candidates: seq<Candidate>, earlier: set<string>, attempted: set<string>)
    requires Exhausted(request, candidates, earlier) && earlier <= attempted
    ensures Exhausted(request, candidates, attempted)
  {
  }

  // Every candidate comes from some round.
  ghost predicate Offered(rounds: seq<seq<Candidate>>, some: seq<Candidate>) {
    forall c | c in some :: exists n :: 0 <= n < |rounds| && c in rounds[n]
  }

  lemma OfferedGrows(rounds: seq<seq<Candidate>>, n: nat, before: seq<Candidate>, after: seq<Candidate>)
    requires Offered(rounds, before) && before <= after && n < |rounds| && From(after[|before|..], rounds[n])
    ensures Offered(rounds, after)
  {
    forall c | c in after
      ensures exists n :: 0 <= n < |rounds| && c in rounds[n]
    {
      if c !in before {
        assert after == before + after[|before|..];
        assert c in rounds[n];
      }
    }
  }

  /** The whole request, one round per retry until the deadline.  Over all rounds no provider receives more
      than one data call, and whoever was attempted was asked, or declined for its boundaries.  A receipt
      request is answered with null if and only if at least one provider found nothing at or below the pinned
      head and every asked provider that knows the method agrees; any other payload is one provider's usable
      answer.  It gives up only after a round that left nobody to ask, or at the deadline with every round
      exhausted, and never with a usable answer in hand. */
  method Route(request: Request, rounds: seq<seq<Candidate>>)
    returns (r: Result<(Payload, string), RouteError>, asked: seq<Candidate>, declined: seq<Candidate>, attempted: set<string>,
        ghost tries: seq<set<string>>)
    requires WellFormed(request)
    ensures Accounted(request, attempted, asked, declined) && Offered(rounds, asked) && Offered(rounds, declined)
    ensures Settled(request, rounds, r, asked, attempted)
    ensures Retried(request, rounds, tries, asked, attempted, r)
  {
    hide StillTrying, Underway, Listed, Counted, Accounted, Exhausted, Returned, Fruitless, Offered, From,
        AgreedInvisible, Settled, Retried, Onward, FirstAnswer;
    attempted, asked, declined, tries := {}, [], [], [{}];
    NothingRetried(request, rounds);
    NothingTried(request, rounds);
    for round := 0 to |rounds|
      invariant StillTrying(request, rounds, round, attempted, asked, declined)
      invariant request.receiptHash.Some? ==> asked == [] && attempted == {}
      invariant |tries| == round + 1 && tries[round] == attempted && Onward(request, rounds, tries)
    {
      ghost var before := Progress(attempted, asked, declined, 0, 0, "");
      StillAccounted(request, rounds, round, attempted, asked, declined);
      var result, p := RunRound(request, rounds[round], attempted, asked, declined);
      attempted, asked, declined := p.attempted, p.asked, p.declined;
      ghost var earlier := tries;
      tries := tries + [attempted];
      StillOffered(request, rounds, round, before, p);
      if result.Some? {
        SettledByAnswer(request, rounds, result.value, asked, attempted);
        RetriedToAnswer(request, rounds, round, before, p, earlier, declined, result.value);
        return result.value, asked, declined, attempted, tries;
      }
      StillTryingNext(request, rounds, round, before, p);
      UnderwayParts(request, before, p, rounds[round]);
      StillParts(request, rounds, round + 1, attempted, asked, declined);
      if request.receiptHash.Some? && |attempted| > 0 {
        AgreedByCounters(request, before, p);
        if p.nullReceipts > 0 && p.nullReceipts == p.eligible {
          SettledByQuorum(request, rounds, p.nullUpstream, asked, attempted);
          RetriedToEnd(request, rounds, round, earlier, asked, attempted, Ok((Null, p.nullUpstream)));
          return Ok((Null, p.nullUpstream)), asked, declined, attempted, tries;
        }
        // Transport and protocol failures are no evidence of absence.
        SettledByExhaustion(request, rounds, round, asked, attempted);
        RetriedToEnd(request, rounds, round, earlier, asked, attempted, Err(NoEligibleUpstream));
        return Err(NoEligibleUpstream), asked, declined, attempted, tries;
      }
      NewlyAttempted(request, before, p, rounds[round]);
      if p.eligible == 0 && |attempted| >= |rounds[round]| && |rounds[round]| > 0 {
        NobodyAgreed(request, attempted, asked, declined);
        SettledByExhaustion(request, rounds, round, asked, attempted);
        RetriedToEnd(request, rounds, round, earlier, asked, attempted, Err(NoEligibleUpstream));
        return Err(NoEligibleUpstream), asked, declined, attempted, tries;
      }
      NobodyAttempted(request, attempted, asked, declined);
      OnwardStep(request, rounds, round, earlier, attempted);
    }
    StillParts(request, rounds, |rounds|, attempted, asked, declined);
    NobodyAgreed(request, attempted, asked, declined);
    SettledByDeadline(request, rounds, asked, attempted);
    r := Err(DeadlinePassed);
    RetriedToDeadline(request, rounds, tries, asked, attempted);
  }

  // The round ends the request without an answer: a receipt request once anybody was attempted, any other request
  // when the round attempted nobody new and there are no more candidates than were attempted.
  predicate GivesUp(request: Request, candidates: seq<Candidate>, before: set<string>, after: set<string>) {
    if request.receiptHash.Some? then after != {} else |after| == |before| && |after| >= |candidates| > 0
  }

  // `tries` lists who had been attempted when each round began; no round gave up.
  ghost predicate Onward(request: Request, rounds: seq<seq<Candidate>>, tries: seq<set<string>>) {
    && 1 <= |tries| <= |rounds| + 1 && tries[0] == {}
    && forall m | 0 <= m < |tries| - 1 :: !GivesUp(request, rounds[m], tries[m], tries[m + 1])
  }

  // How often a request was retried: until the first round that answered it or gave up, or to the last.  An answer
  // is the first of its round in the order of the candidates.
  ghost predicate Retried(request: Request, rounds: seq<seq<Candidate>>, tries: seq<set<string>>, asked: seq<Candidate>,
                          attempted: set<string>, r: Result<(Payload, string), RouteError>) {
    && tries != [] && tries[|tries| - 1] == attempted
    && if r == Err(DeadlinePassed) then |tries| == |rounds| + 1 && Onward(request, rounds, tries)
       else
         && 2 <= |tries| <= |rounds| + 1 && Onward(request, rounds, tries[..|tries| - 1])
         && var candidates := rounds[|tries| - 2];
            if r == Err(NoEligibleUpstream) || (request.receiptHash.Some? && r.Ok? && r.value.0.Null?)
            then GivesUp(request, candidates, tries[|tries| - 2], attempted)
            else && asked != [] && Fruitless(request, asked[..|asked| - 1])
                 && exists i | 0 <= i < |candidates| ::
                      candidates[i] == asked[|asked| - 1] && Exhausted(request, candidates[..i], attempted)
  }

  lemma NothingRetried(request: Request, rounds: seq<seq<Candidate>>)
    ensures Onward(request, rounds, [{}])
  {
  }

  lemma OnwardStep(request: Request, rounds: seq<seq<Candidate>>, n: nat, tries: seq<set<string>>, attempted: set<string>)
    requires n < |rounds| && |tries| == n + 1 && Onward(request, rounds, tries)
    requires !GivesUp(request, rounds[n], tries[n], attempted)
    ensures Onward(request, rounds, tries + [attempted])
  {
    hide GivesUp;
  }

  // A request for anything but a receipt counts exactly those it newly attempts.
  lemma NewlyAttempted(request: Request, before: Progress, p: Progress, candidates: seq<Candidate>)
    requires WellFormed(request) && Listed(before, p, candidates) && Counted(request, before, p)
    ensures request.receiptHash.None? ==> |p.attempted| == |before.attempted| + p.eligible
  {
  }

  lemma RetriedToAnswer(request: Request, rounds: seq<seq<Candidate>>, n: nat, before: Progress, p: Progress,
        tries: seq<set<string>>, declined: seq<Candidate>, r: Result<(Payload, string), RouteError>)
    requires WellFormed(request) && n < |rounds| && |tries| == n + 1 && Onward(request, rounds, tries)
    requires StillTrying(request, rounds, n, before.attempted, before.asked, before.declined)
    requires Listed(before, p, rounds[n]) && FirstAnswer(request, before.asked, p, rounds[n])
    requires Returned(request, p.asked[|p.asked| - 1], r)
    ensures Retried(request, rounds, tries + [p.attempted], p.asked, p.attempted, r)
  {
    hide Accounted, Exhausted, Onward, GivesUp, Fruitless, Offered;
    var others, longer := p.asked[..|p.asked| - 1], tries + [p.attempted];
    assert longer[..|longer| - 1] == tries && longer[|longer| - 1] == p.attempted;
    assert others[|before.asked|..] == p.asked[|before.asked|..|p.asked| - 1];
    assert before.asked <= others;
    FruitlessJoins(request, before.asked, others);
    assert rounds[|longer| - 2] == rounds[n];
  }

  lemma RetriedToEnd(request: Request, rounds: seq<seq<Candidate>>, n: nat, tries: seq<set<string>>, asked: seq<Candidate>,
        attempted: set<string>, r: Result<(Payload, string), RouteError>)
    requires n < |rounds| && |tries| == n + 1 && Onward(request, rounds, tries)
    requires GivesUp(request, rounds[n], tries[n], attempted)
    requires r == Err(NoEligibleUpstream) || (request.receiptHash.Some? && r.Ok? && r.value.0.Null?)
    ensures Retried(request, rounds, tries + [attempted], asked, attempted, r)
  {
    hide GivesUp, Onward;
    var longer := tries + [attempted];
    assert longer[..|longer| - 1] == tries && longer[|longer| - 2] == tries[n];
  }

  lemma RetriedToDeadline(request: Request, rounds: seq<seq<Candidate>>, tries: seq<set<string>>, asked: seq<Candidate>,
        attempted: set<string>)
    requires |tries| == |rounds| + 1 && tries[|rounds|] == attempted && Onward(request, rounds, tries)
    ensures Retried(request, rounds, tries, asked, attempted, Err(DeadlinePassed))
  {
  }

  // How a request may end: with null exactly on the receipt quorum, with the last asked provider's usable answer or
  // error, or with nobody left to ask and no usable answer.
  ghost predicate Settled(request: Request, rounds: seq<seq<Candidate>>, r: Result<(Payload, string), RouteError>,
                          asked: seq<Candidate>, attempted: set<string>)
  {
    && (request.receiptHash.Some? && request.target.Some? ==> (r.Ok? && r.value.0.Null? <==> AgreedInvisible(asked, request)))
    && match r
       case Ok(answer) => (request.receiptHash.Some? && answer.0.Null?)
           || (asked != [] && Returned(request, asked[|asked| - 1], r))
       case Err(Upstream(_)) => asked != [] && Returned(request, asked[|asked| - 1], r)
       case Err(NoEligibleUpstream) => Fruitless(request, asked)
           && exists n | 0 <= n < |rounds| :: Exhausted(request, rounds[n], attempted)
       case Err(DeadlinePassed) => Fruitless(request, asked)
           && forall n | 0 <= n < |rounds| :: Exhausted(request, rounds[n], attempted)
       case Err(HeadUnavailable) => false
  }

  // The candidate is kept from the data call by what it supports, or by a target it does not have.
  predicate Unsuited(c: Candidate, request: Request) {
    || !c.supports || (request.requireEIP1898 && !c.supportsPinned)
    || (request.target.Some? && request.receiptHash.None? && !c.hasTarget)
  }

  // The answer shows the request no receipt: null, or a receipt of the transaction above the pinned head.
  predicate ShowsNothing(c: Candidate, request: Request)
    requires request.receiptHash.Some? && request.target.Some?
  {
    && c.result.Answer? && c.matchesTarget
    && (|| c.result.payload.Null?
        || (&& c.result.payload.Found? && Includes(c.result.payload.receipt, request.receiptHash.value)
            && ParseEVMQuantity(c.result.payload.receipt.blockNumber).value > request.target.value.number))
  }

  /** What the end of a request says about each provider.  Nobody unsuited was asked or declined, and the answer
      handed back is the last asked provider's, examined; without one, everybody suited was attempted in the round
      that ended the request, or by the deadline in every round, and nobody's answer was usable. */
  lemma SettledMeans(request: Request, rounds: seq<seq<Candidate>>, r: Result<(Payload, string), RouteError>,
        asked: seq<Candidate>, declined: seq<Candidate>, attempted: set<string>)
    requires WellFormed(request) && Accounted(request, attempted, asked, declined)
    requires Settled(request, rounds, r, asked, attempted)
    ensures forall c | c in asked || c in declined :: !Unsuited(c, request)
    ensures request.boundaries ==>
              (forall c | c in asked :: c.boundaryBefore) && (forall c | c in declined :: !c.boundaryBefore)
    ensures !request.boundaries ==> declined == []
    ensures r.Ok? && (request.receiptHash.None? || !r.value.0.Null?) ==>
              && asked != []
              && var last := asked[|asked| - 1];
                 && last.result == Answer(r.value.0) && last.id == r.value.1
                 && (request.target.Some? ==> last.matchesTarget)
                 && (request.boundaries ==> last.boundaryBefore && last.boundaryAfter)
                 && (request.receiptHash.Some? ==>
                       && r.value.0.Found? && Includes(r.value.0.receipt, request.receiptHash.value)
                       && ParseEVMQuantity(r.value.0.receipt.blockNumber).value <= request.target.value.number)
    ensures r.Err? && r.error.Upstream? ==> asked != [] && asked[|asked| - 1].result == RpcFailure(r.error.code)
    ensures r == Err(NoEligibleUpstream) ==>
              exists n | 0 <= n < |rounds| :: forall c | c in rounds[n] :: c.id in attempted || Unsuited(c, request)
    ensures r == Err(DeadlinePassed) ==>
              forall n, c | 0 <= n < |rounds| && c in rounds[n] :: c.id in attempted || Unsuited(c, request)
    ensures request.receiptHash.Some? ==>
              (r.Ok? && r.value.0.Null? <==>
                 && (exists c | c in asked :: ShowsNothing(c, request))
                 && forall c | c in asked :: ShowsNothing(c, request) || c.result.MethodNotFound?)
  {
    if request.receiptHash.Some? {
      assert forall c :: ShowsNothing(c, request) <==> Invisible(c, request);
    }
    if r == Err(NoEligibleUpstream) {
      var n :| 0 <= n < |rounds| && Exhausted(request, rounds[n], attempted);
      assert forall c | c in rounds[n] :: c.id in attempted || Unsuited(c, request);
    }
    if declined != [] {
      assert declined[0] in declined;
    }
  }

  lemma SettledByAnswer(request: Request, rounds: seq<seq<Candidate>>, r: Result<(Payload, string), RouteError>,
        asked: seq<Candidate>, attempted: set<string>)
    requires WellFormed(request) && asked != [] && Returned(request, asked[|asked| - 1], r)
    ensures Settled(request, rounds, r, asked, attempted)
  {
    if request.receiptHash.Some? {
      assert asked[|asked| - 1] in asked;
    }
  }

  lemma SettledByQuorum(request: Request, rounds: seq<seq<Candidate>>, upstream: string, asked: seq<Candidate>,
        attempted: set<string>)
    requires WellFormed(request) && request.receiptHash.Some? && AgreedInvisible(asked, request)
    ensures Settled(request, rounds, Ok((Null, upstream)), asked, attempted)
  {
  }

  lemma SettledByExhaustion(request: Request, rounds: seq<seq<Candidate>>, n: nat, asked: seq<Candidate>, attempted: set<string>)
    requires WellFormed(request) && n < |rounds| && Exhausted(request, rounds[n], attempted) && Fruitless(request, asked)
    requires request.receiptHash.Some? ==> !AgreedInvisible(asked, request)
    ensures Settled(request, rounds, Err(NoEligibleUpstream), asked, attempted)
  {
  }

  lemma SettledByDeadline(request: Request, rounds: seq<seq<Candidate>>, asked: seq<Candidate>, attempted: set<string>)
    requires WellFormed(request) && Fruitless(request, asked)
              && forall n | 0 <= n < |rounds| :: Exhausted(request, rounds[n], attempted)
    requires request.receiptHash.Some? ==> !AgreedInvisible(asked, request)
    ensures Settled(request, rounds, Err(DeadlinePassed), asked, attempted)
  {
  }

  // After `n` rounds without a result.
  ghost predicate StillTrying(request: Request, rounds: seq<seq<Candidate>>, n: nat, attempted: set<string>,
        asked: seq<Candidate>, declined: seq<Candidate>)
    requires n <= |rounds|
  {
    && Accounted(request, attempted, asked, declined) && Offered(rounds, asked) && Offered(rounds, declined)
    && Fruitless(request, asked) && forall m | 0 <= m < n :: Exhausted(request, rounds[m], attempted)
  }

  lemma NothingTried(request: Request, rounds: seq<seq<Candidate>>)
    ensures StillTrying(request, rounds, 0, {}, [], [])
  {
  }

  lemma StillAccounted(request: Request, rounds: seq<seq<Candidate>>, n: nat, attempted: set<string>,
        asked: seq<Candidate>, declined: seq<Candidate>)
    requires n <= |rounds| && StillTrying(request, rounds, n, attempted, asked, declined)
    ensures Accounted(request, attempted, asked, declined)
  {
  }

  lemma StillParts(request: Request, rounds: seq<seq<Candidate>>, n: nat, attempted: set<string>,
        asked: seq<Candidate>, declined: seq<Candidate>)
    requires n <= |rounds| && StillTrying(request, rounds, n, attempted, asked, declined)
    ensures Accounted(request, attempted, asked, declined) && Offered(rounds, asked) && Offered(rounds, declined)
    ensures Fruitless(request, asked) && forall m | 0 <= m < n :: Exhausted(request, rounds[m], attempted)
  {
  }

  lemma StillOffered(request: Request, rounds: seq<seq<Candidate>>, n: nat, before: Progress, p: Progress)
    requires n < |rounds| && StillTrying(request, rounds, n, before.attempted, before.asked, before.declined)
    requires Listed(before, p, rounds[n])
    ensures Offered(rounds, p.asked) && Offered(rounds, p.declined)
  {
    OfferedGrows(rounds, n, before.asked, p.asked);
    OfferedGrows(rounds, n, before.declined, p.declined);
  }

  lemma StillTryingNext(request: Request, rounds: seq<seq<Candidate>>, n: nat, before: Progress, p: Progress)
    requires WellFormed(request) && n < |rounds| && Underway(request, before, p, rounds[n])
    requires StillTrying(request, rounds, n, before.attempted, before.asked, before.declined)
    ensures StillTrying(request, rounds, n + 1, p.attempted, p.asked, p.declined)
  {
    StillOffered(request, rounds, n, before, p);
    FruitlessJoins(request, before.asked, p.asked);
    AttemptedGrows(request, before.attempted, before.asked, before.declined, p);
    hide Accounted, Exhausted, Offered, Fruitless, From, Tally;
    forall m | 0 <= m < n
      ensures Exhausted(request, rounds[m], p.attempted)
    {
      ExhaustedLater(request, rounds[m], before.attempted, p.attempted);
    }
  }

  // The counters of a first round decide the receipt quorum.
  lemma AgreedByCounters(request: Request, before: Progress, p: Progress)
    requires WellFormed(request) && request.receiptHash.Some?
    requires before.asked == [] && Counted(request, before, p)
    ensures p.nullReceipts > 0 && p.nullReceipts == p.eligible <==> AgreedInvisible(p.asked, request)
  {
    assert p.asked[|before.asked|..] == p.asked;
  }

  lemma NobodyAgreed(request: Request, attempted: set<string>, asked: seq<Candidate>, declined: seq<Candidate>)
    requires WellFormed(request) && Accounted(request, attempted, asked, declined)
    ensures request.receiptHash.Some? && attempted == {} ==> !AgreedInvisible(asked, request)
  {
    NobodyAttempted(request, attempted, asked, declined);
  }

  lemma AttemptedGrows(request: Request, attempted: set<string>, asked: seq<Candidate>, declined: seq<Candidate>, p: Progress)
    requires Accounted(request, attempted, asked, declined) && Accounted(request, p.attempted, p.asked, p.declined)
    requires asked <= p.asked && declined <= p.declined
    ensures attempted <= p.attempted
  {
    assert p.asked == asked + p.asked[|asked|..] && p.declined == declined + p.declined[|declined|..];
  }

  lemma NobodyAttempted(request: Request, attempted: set<string>, asked: seq<Candidate>, declined: seq<Candidate>)
    requires Accounted(request, attempted, asked, declined)
    ensures attempted == {} ==> asked == []
  {
    if asked != [] {
      assert asked[0].id in Ids(asked);
    }
  }
}
