/** How a result callback turns the HTTP status of a completed exchange, and
    the body decoder's answer, into a module return code, and whether it asks
    for the response to be logged as an error. */
module Classifier {
  import opened Rcodes

  /** The 2xx (Successful) status class of RFC 9110, section 15.3. */
  predicate Successful(status: int)
  {
    200 <= status < 300
  }

  /** The two status tables in use: authorize and authenticate share the
      finer one, accounting and post-auth the coarser one. */
  datatype Table = AuthTable | AcctTable

  /** A return code, and whether the body decoder was consulted for it. */
  datatype Decision = Decision(code: Rcode, decoded: bool)

  /** What one result callback concluded about a completed exchange. */
  datatype Verdict = Verdict(code: Rcode, decoded: bool, reported: bool)

  /** The body decoder reports an error (< 0), no attribute update (0) or
      some updates (> 0). */
  function DecodeOutcome(dec: int): (r: Rcode)
    ensures r == Fail <==> dec < 0
    ensures r == Ok <==> dec == 0
    ensures r == Updated <==> dec > 0
  {
    if dec < 0 then Fail else if dec == 0 then Ok else Updated
  }

  /** The authorize/authenticate table, checked in the order of its switch. */
  function AuthDecision(status: int, dec: int): (d: Decision)
    ensures d.decoded <==> status == 401 || (Successful(status) && status != 204)
    ensures d.code == NotFound <==> status == 404 || status == 410
    ensures d.code == Userlock <==> status == 403
    ensures d.code == Reject <==> status == 401 && dec >= 0
    ensures d.code == Ok <==> Successful(status) && (status == 204 || dec == 0)
    ensures d.code == Updated <==> Successful(status) && status != 204 && dec > 0
    ensures d.code == Invalid <==> status < 500 && !Successful(status) && status !in {401, 403, 404, 410}
    ensures d.code == Fail <==> status >= 500 || (d.decoded && dec < 0)
    ensures d.code != Handled && d.code != Noop
  {
    if status == 404 || status == 410 then Decision(NotFound, false)
    else if status == 403 then Decision(Userlock, false)
    else if status == 401 then Decision(if dec < 0 then Fail else Reject, true)
    else if status == 204 then Decision(Ok, false)
    else if Successful(status) then Decision(DecodeOutcome(dec), true)
    else if status < 500 then Decision(Invalid, false)
    else Decision(Fail, false)
  }

  /** The accounting/post-auth table: server errors first, then 204, then
      the rest of 2xx; everything else is invalid. */
  function AcctDecision(status: int, dec: int): (d: Decision)
    ensures d.decoded <==> Successful(status) && status != 204
    ensures d.code == Ok <==> Successful(status) && (status == 204 || dec == 0)
    ensures d.code == Updated <==> Successful(status) && status != 204 && dec > 0
    ensures d.code == Invalid <==> status < 500 && !Successful(status)
    ensures d.code == Fail <==> status >= 500 || (d.decoded && dec < 0)
    ensures d.code in {Ok, Updated, Invalid, Fail}
  {
    if status >= 500 then Decision(Fail, false)
    else if status == 204 then Decision(Ok, false)
    else if Successful(status) then Decision(DecodeOutcome(dec), true)
    else Decision(Invalid, false)
  }

  function Decide(table: Table, status: int, dec: int): Decision
  {
    match table
    case AuthTable => AuthDecision(status, dec)
    case AcctTable => AcctDecision(status, dec)
  }

  /** The return codes after which a table asks for the error reporter. */
  predicate Reports(table: Table, code: Rcode)
  {
    match table
    case AuthTable => code == Invalid || code == Fail || code == Userlock
    case AcctTable => code == Invalid || code == Fail
  }

  /** One result callback's classification. When the status attribute could
      not be recorded the callback fails at once: no table, no decoder, no
      error report. */
  function Classify(table: Table, statusUpdated: bool, status: int, dec: int): (v: Verdict)
    ensures !statusUpdated ==> v.code == Fail && !v.decoded && !v.reported
    ensures statusUpdated ==> v.code == Decide(table, status, dec).code && v.decoded == Decide(table, status, dec).decoded
    ensures v.reported <==> statusUpdated && (v.code == Invalid || v.code == Fail || (table == AuthTable && v.code == Userlock))
    ensures v.code == Reject ==> table == AuthTable && !v.reported
  {
    if !statusUpdated then Verdict(Fail, false, false)
    else
      var d := Decide(table, status, dec);
      Verdict(d.code, d.decoded, Reports(table, d.code))
  }

  /** Away from 401, 403, 404 and 410 the two tables agree. */
  lemma TablesAgreeElsewhere(status: int, dec: int)
    requires status !in {401, 403, 404, 410}
    ensures AuthDecision(status, dec) == AcctDecision(status, dec)
  {
  }

  /** On 401, 403, 404 and 410 the tables differ: the coarse one answers
      invalid whatever the body says. */
  lemma TablesDifferOnAuthCodes(status: int, dec: int)
    requires status in {401, 403, 404, 410}
    ensures AcctDecision(status, dec) == Decision(Invalid, false)
    ensures AuthDecision(status, dec).code in {NotFound, Userlock, Reject, Fail}
  {
  }

  /** When a callback does not consult the decoder, the decoder's answer
      cannot change its verdict. */
  lemma VerdictIgnoresUnusedDecoder(table: Table, statusUpdated: bool, status: int, dec: int, dec': int)
    requires !Classify(table, statusUpdated, status, dec).decoded
    ensures Classify(table, statusUpdated, status, dec') == Classify(table, statusUpdated, status, dec)
  {
  }
}
