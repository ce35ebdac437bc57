/**
 * The notification relay: the guards of `handleNotificationRequest`, the
 * mapping of the push provider's answer to the JSON result, and the router
 * that sends `/sendNotification` to it and everything else to the page.
 */
module Relay {
  import opened Wrappers
  import opened Parsing
  import opened RateLimit

  const NotificationPath: string := "/sendNotification"
  /** The push provider's designated success code. */
  const SuccessCode: int := 1000
  /** The fixed notification text sent to the owner ("someone needs you to move your car"). */
  const NotificationContent: string := "您好，有人需要您挪车，请及时处理。"
  /** The provider's content-type discriminator for plain text. */
  const TextContentType: int := 1

  const MethodNotAllowedText: string := "Method Not Allowed"
  /** "illegal origin" */
  const IllegalOriginMessage: string := "非法来源请求"
  /** "too many requests, try again later" */
  const TooManyRequestsMessage: string := "请求过于频繁，请稍后再试"
  /** "notification not configured" */
  const NotConfiguredMessage: string := "通知参数未配置"
  /** "notification failed": the fallback when the provider gives no message */
  const SendFailedMessage: string := "通知发送失败"
  /** "network error, try again later" */
  const NetworkErrorMessage: string := "网络错误，请稍后再试"

  /** The parts of an incoming request the worker looks at; absent headers are `None`. */
  datatype Request = Request(
    httpMethod: string,
    path: string,
    origin: Option<string>,
    cfConnectingIp: Option<string>,
    forwardedFor: Option<string>)

  /** The worker's environment bindings; an unset binding is `None`. */
  datatype Env = Env(phoneNumber: Option<string>, appToken: Option<string>, uids: Option<string>)

  /** The JSON payload posted to the push provider. */
  datatype PushMessage = PushMessage(appToken: string, content: string, contentType: int, uids: seq<string>)

  /** What came back from the provider: the call threw, the body was not JSON, or a parsed object. */
  datatype ProviderOutcome =
    | NetworkError
    | ParseFailed
    | Parsed(code: Option<int>, message: Option<string>)

  datatype Body =
    | PlainText(text: string)
    | Json(success: bool, message: Option<string>)
    | Page(phone: string)

  datatype Response = Response(status: int, headers: map<string, string>, body: Body)

  /** The result of one request: the response, the limiter store afterwards, and what was posted to the provider. */
  datatype Handled = Handled(response: Response, store: map<string, Entry>, sent: Option<PushMessage>)

  const JsonHeaders: map<string, string> := map["Content-Type" := "application/json"]

  function JsonResponse(status: int, success: bool, message: Option<string>): (r: Response)
  {
    Response(status, JsonHeaders, Json(success, message))
  }

  /** The `Origin` guard: a truthy `Origin` that differs from the worker's own origin. */
  predicate ForeignOrigin(req: Request, expectedOrigin: string)
    ensures ForeignOrigin(req, expectedOrigin) <==> OrEmpty(req.origin) !in {"", expectedOrigin}
    ensures req.origin in {None, Some(""), Some(expectedOrigin)} ==> !ForeignOrigin(req, expectedOrigin)
  {
    Truthy(req.origin) && req.origin.value != expectedOrigin
  }

  /**
   * The answer sent back once the provider has been called: success only for
   * a parsed body carrying the success code; otherwise failure, still with
   * status 200, carrying the provider's message when it is truthy.
   */
  function ProviderResponse(outcome: ProviderOutcome): (resp: Response)
    ensures resp.status == 200 && resp.headers == JsonHeaders && resp.body.Json?
    ensures resp.body.success <==> outcome.Parsed? && outcome.code == Some(SuccessCode)
    ensures resp.body.success ==> resp.body.message == None
    ensures outcome.NetworkError? ==> resp.body.message == Some(NetworkErrorMessage)
    ensures outcome.ParseFailed? ==> resp.body.message == Some(SendFailedMessage)
    ensures outcome.Parsed? && outcome.code != Some(SuccessCode) ==>
              resp.body.message == Some(if Truthy(outcome.message) then outcome.message.value else SendFailedMessage)
  {
    match outcome
    case NetworkError => JsonResponse(200, false, Some(NetworkErrorMessage))
    case ParseFailed => JsonResponse(200, false, Some(SendFailedMessage))
    case Parsed(code, message) =>
      if code == Some(SuccessCode) then JsonResponse(200, true, None)
      else JsonResponse(200, false, Some(if Truthy(message) then message.value else SendFailedMessage))
  }

  /** The limiter's verdict as the handler sees it: an empty identifier is never limited. */
  function Limit(store: map<string, Entry>, ip: string, now: int): (d: Decision)
    ensures ip == "" ==> d == Decision(true, store)
    ensures ip != "" ==> d == Consult(store, ip, now)
  {
    if ip != "" then Consult(store, ip, now) else Decision(true, store)
  }

  /**
   * `handleNotificationRequest` on values: the method guard, the origin guard,
   * the rate limit, the configuration guard, then the provider's answer.
   */
  function Respond(store: map<string, Entry>, req: Request, expectedOrigin: string, env: Env,
                   outcome: ProviderOutcome, now: int): (h: Handled)
    // wrong method: 405 with `Allow: POST`; the limiter is not touched
    ensures req.httpMethod != "POST" ==>
              h.response == Response(405, map["Allow" := "POST"], PlainText(MethodNotAllowedText)) &&
              h.store == store && h.sent == None
    // foreign origin: 403; the limiter is not touched
    ensures req.httpMethod == "POST" && ForeignOrigin(req, expectedOrigin) ==>
              h.response == JsonResponse(403, false, Some(IllegalOriginMessage)) &&
              h.store == store && h.sent == None
    // the limiter is consulted exactly once, and only past the first two guards with a non-empty identifier
    ensures h.store == if req.httpMethod == "POST" && !ForeignOrigin(req, expectedOrigin)
                       then Limit(store, GetClientIp(req.cfConnectingIp, req.forwardedFor), now).store else store
    ensures h.response.status == 429 <==>
              req.httpMethod == "POST" && !ForeignOrigin(req, expectedOrigin) &&
              !Limit(store, GetClientIp(req.cfConnectingIp, req.forwardedFor), now).allowed
    ensures h.response.status == 429 ==> h.response == JsonResponse(429, false, Some(TooManyRequestsMessage))
    // misconfiguration is reported only after the earlier guards pass
    ensures h.response.status == 500 <==>
              req.httpMethod == "POST" && !ForeignOrigin(req, expectedOrigin) &&
              Limit(store, GetClientIp(req.cfConnectingIp, req.forwardedFor), now).allowed &&
              (OrEmpty(env.appToken) == "" || ParseUids(OrEmpty(env.uids)) == [])
    ensures h.response.status == 500 ==> h.response == JsonResponse(500, false, Some(NotConfiguredMessage))
    // each guard's answer comes exactly from that guard
    ensures h.response.status == 405 <==> req.httpMethod != "POST"
    ensures h.response.status == 403 <==> req.httpMethod == "POST" && ForeignOrigin(req, expectedOrigin)
    // the provider is called iff every guard passed, with the configured token and recipients
    ensures h.sent.Some? <==> h.response.status !in {405, 403, 429, 500}
    ensures h.sent.Some? <==>
              req.httpMethod == "POST" && !ForeignOrigin(req, expectedOrigin) &&
              Limit(store, GetClientIp(req.cfConnectingIp, req.forwardedFor), now).allowed &&
              OrEmpty(env.appToken) != "" && ParseUids(OrEmpty(env.uids)) != []
    ensures h.sent.Some? ==>
              h.sent.value == PushMessage(OrEmpty(env.appToken), NotificationContent, TextContentType,
                                          ParseUids(OrEmpty(env.uids))) &&
              h.sent.value.appToken != "" && h.sent.value.uids != [] &&
              h.response == ProviderResponse(outcome)
  {
    if req.httpMethod != "POST" then
      Handled(Response(405, map["Allow" := "POST"], PlainText(MethodNotAllowedText)), store, None)
    else if ForeignOrigin(req, expectedOrigin) then
      Handled(JsonResponse(403, false, Some(IllegalOriginMessage)), store, None)
    else
      var d := Limit(store, GetClientIp(req.cfConnectingIp, req.forwardedFor), now);
      if !d.allowed then
        Handled(JsonResponse(429, false, Some(TooManyRequestsMessage)), d.store, None)
      else
        var token := OrEmpty(env.appToken);
        var uids := ParseUids(OrEmpty(env.uids));
        if token == "" || uids == [] then
          Handled(JsonResponse(500, false, Some(NotConfiguredMessage)), d.store, None)
        else
          Handled(ProviderResponse(outcome), d.store,
                  Some(PushMessage(token, NotificationContent, TextContentType, uids)))
  }

  /**
   * The configuration guard comes after the limiter: with the worker
   * unconfigured, three requests from one client inside a window are each
   * answered 500 yet each uses up a slot, so the fourth is answered 429.
   */
  lemma MisconfiguredRequestsStillCount(store: map<string, Entry>, req: Request, expectedOrigin: string,
                                        env: Env, outcome: ProviderOutcome, t0: int, t1: int, t2: int, t3: int)
    requires StoreValid(store)
    requires req.httpMethod == "POST" && !ForeignOrigin(req, expectedOrigin)
    requires GetClientIp(req.cfConnectingIp, req.forwardedFor) != ""
    requires !InWindow(store, GetClientIp(req.cfConnectingIp, req.forwardedFor), t0)
    requires t1 <= t0 + WindowMs && t2 <= t0 + WindowMs && t3 <= t0 + WindowMs
    requires OrEmpty(env.appToken) == "" || ParseUids(OrEmpty(env.uids)) == []
    ensures var h0 := Respond(store, req, expectedOrigin, env, outcome, t0);
            var h1 := Respond(h0.store, req, expectedOrigin, env, outcome, t1);
            var h2 := Respond(h1.store, req, expectedOrigin, env, outcome, t2);
            var h3 := Respond(h2.store, req, expectedOrigin, env, outcome, t3);
            h0.response.status == 500 && h1.response.status == 500 && h2.response.status == 500 &&
            h3.response.status == 429 && h3.store == h2.store
  {
    var ip := GetClientIp(req.cfConnectingIp, req.forwardedFor);
    var h0 := Respond(store, req, expectedOrigin, env, outcome, t0);
    assert h0.store[ip] == Entry(1, t0 + WindowMs);
    var h1 := Respond(h0.store, req, expectedOrigin, env, outcome, t1);
    assert InWindow(h0.store, ip, t1);
    assert h1.store[ip] == Entry(2, t0 + WindowMs);
    var h2 := Respond(h1.store, req, expectedOrigin, env, outcome, t2);
    assert InWindow(h1.store, ip, t2);
    assert h2.store[ip] == Entry(3, t0 + WindowMs);
    assert InWindow(h2.store, ip, t3);
  }

  /** `handleNotificationRequest`, consulting the shared limiter in place. */
  method HandleNotificationRequest(limiter: RateLimiter, req: Request, expectedOrigin: string, env: Env,
                                   outcome: ProviderOutcome, now: int)
    returns (resp: Response, sent: Option<PushMessage>)
    requires limiter.Valid()
    modifies limiter
    ensures limiter.Valid()
    ensures Handled(resp, limiter.store, sent) == Respond(old(limiter.store), req, expectedOrigin, env, outcome, now)
  {
    sent := None;
    if req.httpMethod != "POST" {
      return Response(405, map["Allow" := "POST"], PlainText(MethodNotAllowedText)), sent;
    }
    if ForeignOrigin(req, expectedOrigin) {
      return JsonResponse(403, false, Some(IllegalOriginMessage)), sent;
    }
    var ip := GetClientIp(req.cfConnectingIp, req.forwardedFor);
    if ip != "" {
      var allowed := limiter.Allow(ip, now);
      if !allowed {
        return JsonResponse(429, false, Some(TooManyRequestsMessage)), sent;
      }
    }
    var token := OrEmpty(env.appToken);
    var uids := ParseUids(OrEmpty(env.uids));
    if token == "" || uids == [] {
      return JsonResponse(500, false, Some(NotConfiguredMessage)), sent;
    }
    sent := Some(PushMessage(token, NotificationContent, TextContentType, uids));
    resp := ProviderResponse(outcome);
  }

  /** The top-level `fetch`: exact path match to the relay, any other path to the page. */
  method Fetch(limiter: RateLimiter, req: Request, expectedOrigin: string, env: Env,
               outcome: ProviderOutcome, now: int)
    returns (resp: Response, sent: Option<PushMessage>)
    requires limiter.Valid()
    modifies limiter
    ensures limiter.Valid()
    ensures req.path == NotificationPath ==>
              Handled(resp, limiter.store, sent) == Respond(old(limiter.store), req, expectedOrigin, env, outcome, now)
    ensures req.path != NotificationPath ==>
              resp == Response(200, map["Content-Type" := "text/html;charset=UTF-8"], Page(OrEmpty(env.phoneNumber))) &&
              sent == None && limiter.store == old(limiter.store)
  {
    if req.path == NotificationPath {
      resp, sent := HandleNotificationRequest(limiter, req, expectedOrigin, env, outcome, now);
    } else {
      resp := Response(200, map["Content-Type" := "text/html;charset=UTF-8"], Page(OrEmpty(env.phoneNumber)));
      sent := None;
    }
  }
}
