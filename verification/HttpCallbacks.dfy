/** `http_callback`: what each reason libwebsockets has for calling it does to the request. */
module HttpCallbacks {
  import opened Wrappers
  import opened Requests

  /** `http_request`, with its headers in the order in which the map yields them. */
  datatype HttpRequest = HttpRequest(headers: seq<(string, string)>, contentType: string, body: string)

  /**
   * The reasons, with what libwebsockets answers meanwhile: how many header fields it
   * accepts, whether it writes the body, whether it can read the response.
   */
  datatype Reason =
    | ConnectionError(message: string)
    | AppendHeader(accepted: nat)
    | BodyWriteable(written: bool)
    | Established
    | Receive(readable: bool)
    | ReceiveRead(text: string)
    | Completed
    | Closed
    | Destroyed
    | Other

  /** The size of the buffer behind its headroom. */
  const ROOM := 8192

  function Decimal(n: nat): string {
    (if n < 10 then "" else Decimal(n / 10)) + [Digit(n % 10)]
  }

  function Value(digits: string): nat {
    if digits == "" then 0
    else
      var d := digits[|digits| - 1];
      10 * Value(digits[..|digits| - 1]) + if '0' <= d <= '9' then d as nat - '0' as nat else 0
  }

  function Digit(d: nat): (c: char)
    requires d < 10
    ensures '0' <= c <= '9' && c as nat - '0' as nat == d && (d > 0 ==> c != '0')
  {
    "0123456789"[d]
  }

  lemma ValueOfMore(digits: string, d: nat)
    requires d < 10
    ensures Value(digits + [Digit(d)]) == 10 * Value(digits) + d
  {
    var all := digits + [Digit(d)];
    assert all[..|all| - 1] == digits;
  }

  lemma LastDigit(n: nat)
    ensures n == 10 * (n / 10) + n % 10 && (n >= 10 ==> n / 10 > 0)
    ensures Decimal(n) == (if n < 10 then "" else Decimal(n / 10)) + [Digit(n % 10)]
  {
  }

  /** The announced length reads back as the length, and has no digit too many. */
  lemma {:induction false} DecimalReadsBack(n: nat)
    ensures Value(Decimal(n)) == n && Decimal(n) != "" && (n > 0 ==> Decimal(n)[0] != '0')
    ensures forall i :: 0 <= i < |Decimal(n)| ==> '0' <= Decimal(n)[i] <= '9'
    decreases n
  {
    LastDigit(n);
    hide Decimal;
    hide Digit;
    var rest := if n < 10 then "" else Decimal(n / 10);
    if n >= 10 {
      DecimalReadsBack(n / 10);
    } else {
      assert Value(rest) == 0;
    }
    ValueOfMore(rest, n % 10);
    hide Value;
  }

  /** How many fields the handshake has. */
  function FieldCount(request: Option<HttpRequest>): nat {
    match request
    case None => 1
    case Some(q) => 1 + |q.headers| + (if q.contentType != "" then 1 else 0) + if q.body != "" then 1 else 0
  }

  /** A reason that ends the request: from the server, or because something could not be sent. */
  predicate Ends(request: Option<HttpRequest>, reason: Reason) {
    match reason
    case ConnectionError(_) => true
    case AppendHeader(accepted) => accepted < FieldCount(request)
    case BodyWriteable(written) => request.Some? && (|request.value.body| + 1 > ROOM || !written)
    case Completed => true
    case Closed => true
    case Destroyed => true
    case _ => false
  }

  /** The header fields, in the order in which they are added. */
  function Fields(request: Option<HttpRequest>): seq<string> {
    ["User-Agent header"] +
    match request
    case None => []
    case Some(q) =>
      HeaderFields(q.headers)
      + (if q.contentType != "" then ["header Content-Type:" + q.contentType] else [])
      + if q.body != "" then ["header Content-Length:" + Decimal(|q.body|)] else []
  }

  function HeaderFields(headers: seq<(string, string)>): (fields: seq<string>)
    ensures |fields| == |headers|
    ensures forall i :: 0 <= i < |headers| ==> fields[i] == "header " + headers[i].0 + ": " + headers[i].1
  {
    seq(|headers|, i requires 0 <= i < |headers| => "header " + headers[i].0 + ": " + headers[i].1)
  }

  /** What the response says if the field is refused. */
  function Refusal(path: string, field: string): string {
    path + " failed to add " + field
  }

  /** What a call of the callback is in the life of the request, if it is anything. */
  function Meaning(path: string, request: Option<HttpRequest>, reason: Reason): Option<Event> {
    match reason
    case ConnectionError(message) => Some(Failed(path + " error occurred. " + message))
    case AppendHeader(accepted) =>
      var fields := Fields(request);
      if accepted < |fields| then Some(Failed(Refusal(path, fields[accepted]))) else None
    case BodyWriteable(written) =>
      if request.None? then None
      else if |request.value.body| + 1 > ROOM then Some(Failed(path + " body exceeds buffer size"))
      else if !written then Some(Failed(path + " failed to write body"))
      else None
    case Established => None
    case Receive(readable) => if readable then None else Some(ReadFailed)
    case ReceiveRead(text) => Some(Chunk(text))
    case Completed => Some(Done)
    case Closed => Some(Done)
    case Destroyed => Some(Done)
    case Other => None
  }

  /** How many there are, and which one comes after the first `k`. */
  lemma FieldAt(request: Option<HttpRequest>, k: nat)
    ensures |Fields(request)| == FieldCount(request)
    ensures k == 0 ==> Fields(request)[k] == "User-Agent header"
    ensures 0 < k < FieldCount(request) ==>
      var q := request.value;
      Fields(request)[k] ==
        if k <= |q.headers| then "header " + q.headers[k - 1].0 + ": " + q.headers[k - 1].1
        else if q.contentType != "" && k == |q.headers| + 1 then "header Content-Type:" + q.contentType
        else "header Content-Length:" + Decimal(|q.body|)
  {
    hide Decimal;
  }

  /** The handshake: the first field that is refused ends it, and is named. */
  method AppendHeaders(path: string, request: Option<HttpRequest>, accepted: nat) returns (failed: bool, text: string)
    ensures |Fields(request)| == FieldCount(request) && (failed <==> accepted < FieldCount(request))
    ensures failed ==> text == path + " failed to add " + Fields(request)[accepted]
  {
    hide Fields;
    hide Decimal;
    FieldAt(request, accepted);
    if accepted == 0 {
      return true, Refusal(path, "User-Agent header");
    }
    if request == None {
      return false, "";
    }
    var q := request.value;
    for i := 0 to |q.headers|
      invariant i < accepted
    {
      if i + 1 == accepted {
        return true, Refusal(path, "header " + q.headers[i].0 + ": " + q.headers[i].1);
      }
    }
    var added := 1 + |q.headers|;
    if q.contentType != "" {
      if added == accepted {
        return true, Refusal(path, "header Content-Type:" + q.contentType);
      }
      added := added + 1;
    }
    if q.body != "" {
      if added == accepted {
        return true, Refusal(path, "header Content-Length:" + Decimal(|q.body|));
      }
    }
    return false, "";
  }

  /**
   * The body of the callback: the request afterwards, what goes into its response, and the
   * body handed to `lws_write`.
   */
  method HttpCallback(r: Req, path: string, request: Option<HttpRequest>, reason: Reason)
    returns (t: Req, said: string, wrote: Option<string>)
    requires r.kind.Http()
    ensures |Fields(request)| == FieldCount(request)
    ensures match Meaning(path, request, reason)
      case None => t == r && said == ""
      case Some(e) => t == Hear(r, e) && said == Said(e)
    ensures t == r.(wsi := t.wsi, completed := t.completed, heard := t.heard)
    ensures Ends(request, reason) ==> !t.wsi && t.completed
    ensures reason == Receive(false) ==> t == r.(completed := true)
    ensures reason.ReceiveRead? ==> t == r.(heard := r.heard + [reason.text]) && said == reason.text
    ensures !Ends(request, reason) && reason != Receive(false) && !reason.ReceiveRead? ==> t == r && said == ""
    ensures t.heard == r.heard || t.heard == r.heard + [said]
    ensures said != "" ==> t.heard == r.heard + [said]
    ensures reason.ConnectionError? ==> said == path + " error occurred. " + reason.message
    ensures Ends(request, reason) && reason.AppendHeader? ==>
      said == path + " failed to add " + Fields(request)[reason.accepted]
    ensures Ends(request, reason) && reason.BodyWriteable? ==>
      said == path + if |request.value.body| + 1 > ROOM then " body exceeds buffer size" else " failed to write body"
    ensures reason in {Completed, Closed, Destroyed} ==> said == "" && t.heard == r.heard
    ensures wrote ==
      if reason.BodyWriteable? && request.Some? && |request.value.body| + 1 <= ROOM then Some(request.value.body)
      else None
  {
    hide Fields;
    hide Decimal;
    hide FieldCount;
    FieldAt(request, 0);
    t, said, wrote := r, "", None;
    match reason {
      case ConnectionError(message) =>
        said := path + " error occurred. " + message;
        t := r.(wsi := false, completed := true, heard := r.heard + [said]);
      case AppendHeader(accepted) =>
        var failed, text := AppendHeaders(path, request, accepted);
        if failed {
          t, said := r.(wsi := false, completed := true, heard := r.heard + [text]), text;
        }
      case BodyWriteable(written) =>
        if request.Some? {
          if |request.value.body| + 1 > ROOM {
            said := path + " body exceeds buffer size";
            t := r.(wsi := false, completed := true, heard := r.heard + [said]);
          } else {
            wrote := Some(request.value.body);
            if !written {
              said := path + " failed to write body";
              t := r.(wsi := false, completed := true, heard := r.heard + [said]);
            }
          }
        }
      case Established =>
      case Receive(readable) =>
        if !readable {
          t := r.(completed := true);
        }
      case ReceiveRead(text) =>
        t, said := r.(heard := r.heard + [text]), text;
      case Completed =>
        t := r.(wsi := false, completed := true);
      case Closed =>
        t := r.(wsi := false, completed := true);
      case Destroyed =>
        t := r.(wsi := false, completed := true);
      case Other =>
    }
  }
}
