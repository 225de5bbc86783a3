/** The OAuth callback API handler of the front end (pages/api/auth/callback.ts): it
    reads the `code` query parameter, asks the auth service to exchange it for a
    session, and answers with a redirect whose target reports the outcome. Every answer
    is `302 Found` (section 15.4.3 of RFC 9110). */
module Callback {
  import opened Wrappers

  /** The shape of `req.query.code`: absent, one value, or repeated (an array). */
  datatype CodeParam = Missing | Single(code: string) | Repeated(codes: seq<string>)

  /** What `exchangeCodeForSession` did: succeeded, returned an error, or threw. */
  datatype Exchange = Exchanged | ExchangeError | ExchangeThrew

  /** The calls the handler itself makes on the response object, in order. The
      `Set-Cookie` headers that the auth client's cookie adapter writes during the
      exchange are not among them. */
  datatype ResponseAction = SetHeader(name: string, value: string) | Status(code: int) | End

  /** `302 Found`. */
  const Found := 302

  const HomeLocation := "/"
  const InvalidLocation := "/?error=Invalid callback"
  const FailedLocation := "/?error=Authentication failed"
  const ServerErrorLocation := "/?error=Server error"

  /** `res.setHeader('Location', loc); res.status(302).end()`. */
  function RedirectTo(loc: string): seq<ResponseAction> {
    [SetHeader("Location", loc), Status(Found), End]
  }

  /** What the handler did: the code it handed to the exchange, if any, and the
      response calls. `exchange` is consulted only when an exchange is attempted. */
  datatype Handled = Handled(exchanged: Option<string>, actions: seq<ResponseAction>)

  function Handle(code: CodeParam, exchange: string -> Exchange): (r: Handled)
    ensures !code.Single? ==> r == Handled(None, RedirectTo(InvalidLocation))
    ensures code.Single? ==> r.exchanged == Some(code.code)
  {
    match code
    case Single(c) =>
      var loc := match exchange(c)
        case Exchanged => HomeLocation
        case ExchangeError => FailedLocation
        case ExchangeThrew => ServerErrorLocation;
      Handled(Some(c), RedirectTo(loc))
    case _ => Handled(None, RedirectTo(InvalidLocation))
  }

  /** The `Location` the handler set, if it set exactly one. */
  function LocationOf(actions: seq<ResponseAction>): Option<string> {
    if |actions| >= 1 && actions[0].SetHeader? && actions[0].name == "Location"
       && forall k :: 1 <= k < |actions| ==> !actions[k].SetHeader?
    then Some(actions[0].value)
    else None
  }

  /** Every path sets exactly one `Location` and then ends with status 302; the target
      is `/` exactly for a single code whose exchange succeeded, and each failure has its
      own error target. */
  lemma HandleSpec(code: CodeParam, exchange: string -> Exchange)
    ensures var r := Handle(code, exchange);
      && |r.actions| == 3 && r.actions[1] == Status(Found) && r.actions[2] == End
      && LocationOf(r.actions).Some?
      && (LocationOf(r.actions) == Some(HomeLocation) <==> code.Single? && exchange(code.code) == Exchanged)
      && (LocationOf(r.actions) == Some(InvalidLocation) <==> !code.Single?)
      && (LocationOf(r.actions) == Some(FailedLocation) <==> code.Single? && exchange(code.code) == ExchangeError)
      && (LocationOf(r.actions) == Some(ServerErrorLocation) <==> code.Single? && exchange(code.code) == ExchangeThrew)
  {
    var r := Handle(code, exchange);
    assert !r.actions[1].SetHeader? && !r.actions[2].SetHeader?;
  }

  /** The four targets are distinct, so the target alone tells the outcome apart. */
  lemma LocationsDistinct()
    ensures HomeLocation != InvalidLocation && HomeLocation != FailedLocation && HomeLocation != ServerErrorLocation
    ensures InvalidLocation != FailedLocation && InvalidLocation != ServerErrorLocation
    ensures FailedLocation != ServerErrorLocation
  {
    assert InvalidLocation[8] != FailedLocation[8];
    assert InvalidLocation[8] != ServerErrorLocation[8];
    assert FailedLocation[8] != ServerErrorLocation[8];
  }
}
