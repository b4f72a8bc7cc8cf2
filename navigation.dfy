/**
 * Date navigation: how the container's `makeRequest` turns a navigation
 * action and a current date into the lookup it issues, and how a retry of a
 * failed lookup is computed from the failed one.
 *
 * Dates are kept abstract. The date helpers the container imports
 * (`yesterday`, `tomorrow`, `isDateSafe`) and the constant `DaySort.NEWEST`
 * are fields of a `Helpers` value that the model never looks inside, so no
 * calendar behaviour is assumed.
 */
module Navigation {

  /** A date as the helpers receive it. `Undefined` is what `state.date`
      holds before the first successful lookup. */
  datatype Date = Undefined | Day(number: int)

  /** The imported date helpers and the `DaySort.NEWEST` constant. */
  datatype Helpers = Helpers(
    yesterday: Date -> Date,
    tomorrow: Date -> Date,
    isDateSafe: Date -> bool,
    newest: Date)

  /** The navigation actions of `ActionType`. */
  datatype ActionType = Newest | Latest | Previous | Next | Shuffle

  /** One lookup handed to `getByDate`: the target date, and the action type
      its rejection handler retries with. */
  datatype Request = Request(date: Date, kind: ActionType)

  /** What `makeRequest` decides: the lookup it issues, and whether it also
      writes that lookup's date into `DaySort.LATEST`. */
  datatype Plan = Plan(request: Request, recordsLatest: bool)

  /** The switch of `makeRequest`. `shuffled` is the value `shuffleDate()`
      returns on this call. NEWEST asks for `currentDate` itself but is
      re-typed as LATEST, so the lookup never carries the NEWEST type. */
  function PlanRequest(h: Helpers, current: Date, kind: ActionType, shuffled: Date): (p: Plan)
    ensures p.request.kind != Newest
    ensures p.request.kind == (if kind == Newest then Latest else kind)
    ensures p.recordsLatest <==> kind == Newest || kind == Latest
    ensures kind == Newest ==> p.request.date == current
    ensures kind == Latest || kind == Previous ==> p.request.date == h.yesterday(current)
    ensures kind == Next ==> p.request.date == h.tomorrow(current)
    ensures kind == Shuffle ==> p.request.date == shuffled
  {
    match kind
    case Newest => Plan(Request(current, Latest), true)
    case Latest => Plan(Request(h.yesterday(current), Latest), true)
    case Previous => Plan(Request(h.yesterday(current), Previous), false)
    case Next => Plan(Request(h.tomorrow(current), Next), false)
    case Shuffle => Plan(Request(shuffled, Shuffle), false)
  }

  /** The lookup `handleRejection` issues when it retries `failed`: it calls
      `makeRequest` again with the failed lookup's own date and type. */
  function Retry(h: Helpers, failed: Request, shuffled: Date): Request
  {
    PlanRequest(h, failed.date, failed.kind, shuffled).request
  }

  /** The lookup reached after one retry per element of `draws`, each retry
      made from the lookup before it (`draws[k]` is what `shuffleDate()`
      returns on the k-th retry). */
  function RetryChain(h: Helpers, req: Request, draws: seq<Date>): Request
    decreases |draws|
  {
    if draws == [] then req else RetryChain(h, Retry(h, req, draws[0]), draws[1..])
  }

  /** `f` applied `n` times to `d`. */
  function Repeat(f: Date -> Date, d: Date, n: nat): Date
    decreases n
  {
    if n == 0 then d else Repeat(f, f(d), n - 1)
  }

  /** A retry does not ask for the failed date again: it moves on from it. In
      particular a failed NEWEST lookup for `d` (issued as LATEST) is retried
      for `yesterday(d)`, and that retry writes `DaySort.LATEST`. */
  lemma NewestRetriedAsLatest(h: Helpers, d: Date, s0: Date, s1: Date)
    ensures var first := PlanRequest(h, d, Newest, s0).request;
            var again := PlanRequest(h, first.date, first.kind, s1);
            again.request == Request(h.yesterday(d), Latest) && again.recordsLatest
  {
  }

  /** Retrying keeps the action type of every lookup that was issued. */
  lemma RetryKeepsKind(h: Helpers, failed: Request, shuffled: Date)
    requires failed.kind != Newest
    ensures Retry(h, failed, shuffled).kind == failed.kind
  {
  }

  /** A chain of retries walks one day per retry away from the first target:
      backwards for LATEST and PREVIOUS, forwards for NEXT; a SHUFFLE chain
      ends on the last date drawn. */
  lemma {:induction false} RetryChainWalks(h: Helpers, req: Request, draws: seq<Date>)
    requires req.kind != Newest
    ensures RetryChain(h, req, draws).kind == req.kind
    ensures req.kind == Latest || req.kind == Previous ==>
              RetryChain(h, req, draws).date == Repeat(h.yesterday, req.date, |draws|)
    ensures req.kind == Next ==>
              RetryChain(h, req, draws).date == Repeat(h.tomorrow, req.date, |draws|)
    ensures req.kind == Shuffle && draws != [] ==>
              RetryChain(h, req, draws).date == draws[|draws| - 1]
    decreases |draws|
  {
    if draws != [] {
      var next := Retry(h, req, draws[0]);
      RetryChainWalks(h, next, draws[1..]);
      if req.kind == Shuffle && |draws| == 1 {
        assert draws[1..] == [];
      }
    }
  }
}
