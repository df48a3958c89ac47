/** The token status of a request: a full estimate, or provider usage plus what came after it. */
module Tokens {
  import opened Base
  import opened History
  import opened Projection
  import opened ContextManager
  import opened Frame
  import opened Baseline

  /** A prepared request, seen through the token estimate of everything in it. */
  datatype Request = Request(prepared: nat, window: nat)

  datatype Source = FullEstimate | ProviderUsage

  datatype Status = Status(source: Source, tokens: nat, untilLimit: int, limitReached: bool)

  datatype ProviderBaseline = ProviderBaseline(response: ResponseId, total: nat, noncanonical: nat, known: set<ItemId>)

  /** A message estimator, clamped to 32 bits. */
  function Clamp(n: nat): nat {
    Min(n, MAX_U32)
  }

  function WithTokens(request: Request, tokens: nat, source: Source): Status {
    Status(source, tokens, request.window - tokens, request.window - tokens <= 0)
  }

  function ForRequest(request: Request): Status {
    WithTokens(request, Clamp(request.prepared), FullEstimate)
  }

  function Larger(a: nat, b: nat): nat {
    if a > b then a else b
  }

  /** The estimate of something: its size, or the largest 32-bit number. */
  ghost predicate Estimated(tokens: nat, size: nat) {
    if size <= 0xFFFF_FFFF then tokens == size else tokens == 0xFFFF_FFFF
  }

  /**
   The provider's total, the local messages, and what the request has grown by beyond its history since;
   within 32 bits, and never less than the full estimate.
   */
  ghost predicate Accounts(tokens: nat, sent: ProviderBaseline, prepared: nat, canonical: nat, local: nat) {
    var beyond: nat := if prepared > canonical then prepared - canonical else 0;
    var growth: nat := if beyond > sent.noncanonical then beyond - sent.noncanonical else 0;
    var counted: nat := sent.total + local + growth;
    if counted > prepared then Estimated(tokens, counted) else tokens == prepared
  }

  lemma CountedAccounts(sent: ProviderBaseline, full: nat, canonical: nat, local: nat)
    requires sent.total <= MAX_U32 && full <= MAX_U32
    ensures var growth := SaturatingSub(SaturatingSub(full, canonical), sent.noncanonical);
            var counted := SaturatingAdd(SaturatingAdd(sent.total, local, MAX_U32), growth, MAX_U32);
            Accounts(Larger(counted, full), sent, full, canonical, local)
  {
  }

  class ActiveContextTokens {
    const estimate: seq<Message> -> nat
    var baseline: Option<ProviderBaseline>

    ghost predicate Valid()
      reads this
    {
      baseline.Some? ==> baseline.value.total <= MAX_U32
    }

    constructor (estimate: seq<Message> -> nat)
      ensures Valid() && baseline == None && this.estimate == estimate
    {
      this.estimate := estimate;
      baseline := None;
    }

    /** Tokens of a request beyond its projected history. */
    function Noncanonical(request: Request, messages: seq<Message>): nat {
      SaturatingSub(Clamp(request.prepared), Clamp(estimate(messages)))
    }

    /** A provider that reported no usage leaves no baseline. */
    method Record(response: ResponseId, usage: Option<nat>, sent: Request, messages: seq<Message>, known: seq<ItemId>)
      requires usage.Some? ==> usage.value <= MAX_U32
      modifies this
      ensures Valid()
      ensures usage.None? ==> baseline == None
      ensures usage.Some? ==>
                && baseline.Some? && baseline.value.response == response && baseline.value.total == usage.value
                && (forall id :: id in baseline.value.known <==> id in known)
                && (forall p: nat, m: nat :: Estimated(p, sent.prepared) && Estimated(m, estimate(messages))
                      ==> baseline.value.noncanonical == if p > m then p - m else 0)
    {
      baseline := if usage.None? then None
                  else Some(ProviderBaseline(response, usage.value, Noncanonical(sent, messages), set id | id in known));
    }

    method ResetAfterCompaction()
      modifies this
      ensures Valid() && baseline == None
    {
      baseline := None;
    }

    /** May the recorded baseline stand for these rows? */
    ghost predicate Applies(rows: seq<Row>)
      reads this
    {
      baseline.Some? && Reusable(ActiveRows(rows), baseline.value.known, baseline.value.response)
    }

    /** The size of the messages counted on top of the baseline. */
    ghost function LocalTokens(context: ContextManager, images: bool): nat
      requires baseline.Some?
      reads this, context
    {
      var active := ActiveRows(context.rows);
      estimate(Emit(active, ScopeOf(active, images, context.reasoning), Filter(active, Local(baseline.value.known, baseline.value.response))))
    }

    /** Provider usage, local messages and request growth, without the 32-bit limit. */
    ghost function Counted(context: ContextManager, request: Request, images: bool): nat
      requires baseline.Some?
      reads this, context
    {
      baseline.value.total
      + Clamp(LocalTokens(context, images))
      + SaturatingSub(Noncanonical(request, Project(context.rows, images, context.reasoning)), baseline.value.noncanonical)
    }

    /**
     The status is never below the full estimate, and differs from it only when an applicable
     baseline accounts for more.
     */
    method StatusForRequest(context: ContextManager, request: Request, images: bool) returns (status: Status)
      requires Valid() && WellFormed(context.rows)
      ensures !Applies(context.rows) ==> status == ForRequest(request)
      ensures Applies(context.rows) ==> status.tokens == Larger(Clamp(Counted(context, request, images)), Clamp(request.prepared))
      ensures !Applies(context.rows) ==> Estimated(status.tokens, request.prepared)
      ensures Applies(context.rows) ==>
                forall prepared: nat, canonical: nat, local: nat ::
                  Estimated(prepared, request.prepared) && Estimated(local, LocalTokens(context, images))
                  && Estimated(canonical, estimate(Project(context.rows, images, context.reasoning)))
                  ==> Accounts(status.tokens, baseline.value, prepared, canonical, local)
      ensures status.source == ProviderUsage <==> status.tokens > Clamp(request.prepared)
      ensures status.tokens >= ForRequest(request).tokens && status.tokens <= MAX_U32
      ensures status.untilLimit == request.window - status.tokens
      ensures status.limitReached <==> status.tokens >= request.window
    {
      if baseline.Some? {
        var local := LocalMessages(context.rows, baseline.value.known, baseline.value.response, images, context.reasoning);
        if local.Some? {
          var canonical := context.ModelMessages(images);
          var growth := SaturatingSub(Noncanonical(request, canonical), baseline.value.noncanonical);
          var counted := SaturatingAdd(SaturatingAdd(baseline.value.total, Clamp(estimate(local.value)), MAX_U32), growth, MAX_U32);
          var full := Clamp(request.prepared);
          CountedAccounts(baseline.value, full, Clamp(estimate(canonical)), Clamp(estimate(local.value)));
          return if counted > full then WithTokens(request, counted, ProviderUsage) else WithTokens(request, full, FullEstimate);
        }
      }
      status := ForRequest(request);
    }
  }
}
