/**
 * The GitHub webhook endpoint (src/webhook/mod.rs): signature
 * verification, dispatch on the event type, and the decisions taken for push
 * and pull-request events. The HMAC-SHA256 digest (hex-encoded) and the JSON
 * parser are foreign code and enter as function parameters; the JSON bodies
 * of the replies are modelled by the `Reply` datatype.
 */
module Webhook {

  datatype Option<T> = None | Some(value: T)

  /** The HTTP errors the endpoint answers with. */
  datatype HttpError = BadRequest | Unauthorized | InternalServerError

  /** The status code of each error: 400, 401 and 500, every one a 4xx or
      5xx code. */
  function Code(e: HttpError): (r: nat)
    ensures 400 <= r < 600
    ensures r == 400 <==> e == BadRequest
    ensures r == 401 <==> e == Unauthorized
    ensures r == 500 <==> e == InternalServerError
  {
    match e
    case BadRequest => 400
    case Unauthorized => 401
    case InternalServerError => 500
  }

  datatype Result<T> = Ok(value: T) | Err(error: HttpError)

  newtype Byte = x: int | 0 <= x < 256

  /** A header value: readable text, or bytes that `to_str` rejects. */
  datatype HeaderValue = Text(text: string) | Opaque

  /** Request headers by lower-case name (header lookup ignores case). */
  type Headers = map<string, HeaderValue>

  const SignatureHeader: string := "x-hub-signature-256"
  const EventHeader: string := "x-github-event"
  const SignaturePrefix: string := "sha256="
  const BranchPrefix: string := "refs/heads/"

  /** `headers.get(name).and_then(|h| h.to_str().ok())`. */
  function HeaderText(headers: Headers, name: string): (r: Option<string>)
    ensures r.Some? <==> name in headers && headers[name].Text?
    ensures r.Some? ==> headers[name] == Text(r.value)
  {
    if name in headers && headers[name].Text? then Some(headers[name].text) else None
  }

  /** `str::strip_prefix`. */
  function StripPrefix(s: string, prefix: string): (r: Option<string>)
    ensures r.Some? <==> prefix <= s
    ensures r.Some? ==> prefix + r.value == s
  {
    if prefix <= s then
      assert s == s[..|prefix|] + s[|prefix|..];
      Some(s[|prefix|..])
    else None
  }

  /** Stripping a prefix undoes prepending it. */
  lemma StripPrefixAppend(prefix: string, rest: string)
    ensures StripPrefix(prefix + rest, prefix) == Some(rest)
  {
    assert prefix <= prefix + rest;
    assert (prefix + rest)[|prefix|..] == rest;
  }

  /** `verify_signature`: the signature header must be present, readable and
      start with `sha256=`, the key must be accepted by the HMAC, and the
      hex digest of the body must equal the header's remaining characters.
      `mac(secret, body)` is the hex digest, `None` when the key is
      rejected. */
  function VerifySignature(headers: Headers, body: seq<Byte>, secret: string,
                           mac: (string, seq<Byte>) -> Option<string>): (r: Result<()>)
    ensures r.Ok? <==> (HeaderText(headers, SignatureHeader).Some? && mac(secret, body).Some?
                        && HeaderText(headers, SignatureHeader).value == SignaturePrefix + mac(secret, body).value)
    ensures r.Err? ==> r.error == Unauthorized || (r.error == InternalServerError && mac(secret, body).None?)
  {
    match HeaderText(headers, SignatureHeader)
    case None => Err(Unauthorized)
    case Some(signature) =>
      if !(SignaturePrefix <= signature) then Err(Unauthorized)
      else
        var expected := signature[|SignaturePrefix|..];
        assert signature == SignaturePrefix + expected;
        match mac(secret, body)
        case None => Err(InternalServerError)
        case Some(computed) =>
          if computed != expected then Err(Unauthorized) else Ok(())
  }

  /** A missing or unreadable signature header, or one without the `sha256=`
      prefix, is refused as unauthorized whatever the body and the key. */
  lemma MalformedSignatureRefused(headers: Headers, body: seq<Byte>, secret: string, mac: (string, seq<Byte>) -> Option<string>)
    requires HeaderText(headers, SignatureHeader).None? || !(SignaturePrefix <= HeaderText(headers, SignatureHeader).value)
    ensures VerifySignature(headers, body, secret, mac) == Err(Unauthorized)
  {
  }

  /** A header `sha256=` + `x` passes exactly when `x` is the body's digest;
      a wrong digest is unauthorized. */
  lemma SignatureMatches(headers: Headers, body: seq<Byte>, secret: string, mac: (string, seq<Byte>) -> Option<string>, x: string)
    requires HeaderText(headers, SignatureHeader) == Some(SignaturePrefix + x)
    requires mac(secret, body).Some?
    ensures VerifySignature(headers, body, secret, mac).Ok? <==> mac(secret, body).value == x
    ensures mac(secret, body).value != x ==> VerifySignature(headers, body, secret, mac) == Err(Unauthorized)
  {
    StripPrefixAppend(SignaturePrefix, x);
  }

  datatype GitRepository = GitRepository(name: string, fullName: string, cloneUrl: string, sshUrl: string)
  datatype GitAuthor = GitAuthor(name: string, email: string)
  datatype GitCommit = GitCommit(id: string, message: string, author: GitAuthor)
  datatype GitPullRequestRef = GitPullRequestRef(sha: string)
  datatype GitPullRequest = GitPullRequest(number: nat, head: GitPullRequestRef)

  /** The fields of a GitHub event payload the endpoint reads. */
  datatype GitHubWebhook = GitHubWebhook(
    gitRef: Option<string>,
    repository: GitRepository,
    after: Option<string>,
    headCommit: Option<GitCommit>,
    action: Option<string>,
    pullRequest: Option<GitPullRequest>)

  /** The JSON replies. */
  datatype Reply =
    | PushProcessed(repository: string, branch: string, commit: string)
    | PullRequestProcessed(repository: string, prNumber: nat, action: string, commit: string)
    | Ignored(message: string)

  /** The commit of a push: `after`, else the head commit's id. */
  function CommitSha(w: GitHubWebhook): (r: Option<string>)
    ensures r.Some? <==> w.after.Some? || w.headCommit.Some?
  {
    if w.after.Some? then w.after
    else if w.headCommit.Some? then Some(w.headCommit.value.id)
    else None
  }

  /** The branch of a push: the ref without `refs/heads/`, or `unknown`. */
  function Branch(w: GitHubWebhook): string
  {
    if w.gitRef.Some? && StripPrefix(w.gitRef.value, BranchPrefix).Some? then StripPrefix(w.gitRef.value, BranchPrefix).value
    else "unknown"
  }

  /** `handle_push_event`. */
  function HandlePush(w: GitHubWebhook): (r: Result<Reply>)
    ensures r.Ok? ==> r.value.PushProcessed? && r.value.repository == w.repository.fullName
  {
    match CommitSha(w)
    case None => Err(BadRequest)
    case Some(sha) => Ok(PushProcessed(w.repository.fullName, Branch(w), sha))
  }

  /** A push is answered with its commit: `after` when the payload has it,
      otherwise the head commit's id; with neither it is a bad request. */
  lemma PushCommit(w: GitHubWebhook)
    ensures w.after.Some? ==> HandlePush(w).Ok? && HandlePush(w).value.commit == w.after.value
    ensures w.after.None? && w.headCommit.Some? ==> HandlePush(w).Ok? && HandlePush(w).value.commit == w.headCommit.value.id
    ensures w.after.None? && w.headCommit.None? ==> HandlePush(w) == Err(BadRequest)
  {
  }

  /** The branch of a push to `refs/heads/b` is `b`; a payload without a
      ref, or with a ref outside `refs/heads/` (a tag, say), reports
      `unknown`. */
  lemma PushBranch(w: GitHubWebhook, b: string)
    ensures w.gitRef == Some(BranchPrefix + b) ==> Branch(w) == b
    ensures w.gitRef.None? || !(BranchPrefix <= w.gitRef.value) ==> Branch(w) == "unknown"
  {
    StripPrefixAppend(BranchPrefix, b);
  }

  /** The pull-request actions that start work. */
  predicate ProcessedAction(action: string)
  {
    action == "opened" || action == "synchronize" || action == "reopened"
  }

  /** `handle_pull_request_event`. */
  function HandlePullRequest(w: GitHubWebhook): (r: Result<Reply>)
    ensures r.Ok? ==> r.value.PullRequestProcessed? || r.value.Ignored?
  {
    match w.pullRequest
    case None => Err(BadRequest)
    case Some(pr) =>
      var action := if w.action.Some? then w.action.value else "unknown";
      if ProcessedAction(action) then
        Ok(PullRequestProcessed(w.repository.fullName, pr.number, action, pr.head.sha))
      else
        Ok(Ignored("Pull request action '" + action + "' ignored"))
  }

  /** A pull-request event without its pull request is a bad request; one
      with it is processed exactly when its action is opened, synchronize or
      reopened (a missing action counts as `unknown`, which is ignored), and
      then reports the pull request's number and head commit. */
  lemma PullRequestFilter(w: GitHubWebhook)
    ensures w.pullRequest.None? ==> HandlePullRequest(w) == Err(BadRequest)
    ensures w.pullRequest.Some? ==> HandlePullRequest(w).Ok?
    ensures HandlePullRequest(w).Ok? && HandlePullRequest(w).value.PullRequestProcessed? <==>
              w.pullRequest.Some? && w.action.Some? && ProcessedAction(w.action.value)
    ensures HandlePullRequest(w).Ok? && HandlePullRequest(w).value.PullRequestProcessed? ==>
              HandlePullRequest(w).value.prNumber == w.pullRequest.value.number
              && HandlePullRequest(w).value.commit == w.pullRequest.value.head.sha
  {
  }

  /** The event type header, `unknown` when missing or unreadable. */
  function EventType(headers: Headers): string
  {
    match HeaderText(headers, EventHeader)
    case Some(e) => e
    case None => "unknown"
  }

  /** The dispatch on the event type. */
  function Dispatch(eventType: string, w: GitHubWebhook): (r: Result<Reply>)
    ensures r.Ok? && r.value.PushProcessed? ==> eventType == "push"
    ensures r.Ok? && r.value.PullRequestProcessed? ==> eventType == "pull_request"
  {
    if eventType == "push" then HandlePush(w)
    else if eventType == "pull_request" then HandlePullRequest(w)
    else Ok(Ignored("Event type '" + eventType + "' is not handled"))
  }

  /** `handle_github_webhook`: read the body (`None` when reading fails),
      verify the signature when a secret is configured, parse the payload,
      then dispatch on the event type. */
  function HandleGitHubWebhook(secret: Option<string>, headers: Headers, body: Option<seq<Byte>>,
                               parse: seq<Byte> -> Option<GitHubWebhook>,
                               mac: (string, seq<Byte>) -> Option<string>): (r: Result<Reply>)
    ensures body.None? ==> r == Err(BadRequest)
  {
    match body
    case None => Err(BadRequest)
    case Some(bytes) =>
      var verified := if secret.Some? then VerifySignature(headers, bytes, secret.value, mac) else Ok(());
      if verified.Err? then Err(verified.error)
      else
        var eventType := EventType(headers);
        match parse(bytes)
        case None => Err(BadRequest)
        case Some(w) => Dispatch(eventType, w)
  }

  /** Without a secret nothing is verified: the answer does not depend on the
      signature header or on the digest. */
  lemma NoSecretSkipsVerification(headers: Headers, body: seq<Byte>, parse: seq<Byte> -> Option<GitHubWebhook>,
                                  mac: (string, seq<Byte>) -> Option<string>, mac': (string, seq<Byte>) -> Option<string>)
    ensures HandleGitHubWebhook(None, headers, Some(body), parse, mac)
         == HandleGitHubWebhook(None, headers - {SignatureHeader}, Some(body), parse, mac')
  {
    assert EventType(headers - {SignatureHeader}) == EventType(headers);
  }

  /** With a secret, only correctly signed requests get past verification:
      any answer other than an error carries a signature header equal to
      `sha256=` followed by the body's digest under the secret. */
  lemma SignedOnly(secret: string, headers: Headers, body: seq<Byte>, parse: seq<Byte> -> Option<GitHubWebhook>,
                   mac: (string, seq<Byte>) -> Option<string>)
    requires HandleGitHubWebhook(Some(secret), headers, Some(body), parse, mac).Ok?
    ensures mac(secret, body).Some?
    ensures HeaderText(headers, SignatureHeader) == Some(SignaturePrefix + mac(secret, body).value)
  {
  }

  /** Past verification, an event whose type is neither `push` nor
      `pull_request`, or that has no type header, is acknowledged and
      ignored once its payload parses; a payload that does not parse is a
      bad request whatever the event type. */
  lemma OtherEventsIgnored(secret: Option<string>, headers: Headers, body: seq<Byte>,
                           parse: seq<Byte> -> Option<GitHubWebhook>, mac: (string, seq<Byte>) -> Option<string>)
    requires secret.None? || VerifySignature(headers, body, secret.value, mac).Ok?
    ensures parse(body).None? ==> HandleGitHubWebhook(secret, headers, Some(body), parse, mac) == Err(BadRequest)
    ensures parse(body).Some? && EventType(headers) != "push" && EventType(headers) != "pull_request" ==>
              HandleGitHubWebhook(secret, headers, Some(body), parse, mac) == Ok(Ignored("Event type '" + EventType(headers) + "' is not handled"))
    ensures parse(body).Some? && HeaderText(headers, EventHeader).None? ==>
              HandleGitHubWebhook(secret, headers, Some(body), parse, mac) == Ok(Ignored("Event type 'unknown' is not handled"))
  {
    if HeaderText(headers, EventHeader).None? {
      assert EventType(headers) == "unknown";
      assert "unknown" != "push" && "unknown" != "pull_request";
      assert "Event type '" + "unknown" + "' is not handled" == "Event type 'unknown' is not handled";
    }
  }

  /** Only push and pull-request events are ever processed. */
  lemma OnlyPushAndPullRequest(secret: Option<string>, headers: Headers, body: Option<seq<Byte>>,
                               parse: seq<Byte> -> Option<GitHubWebhook>, mac: (string, seq<Byte>) -> Option<string>)
    ensures var r := HandleGitHubWebhook(secret, headers, body, parse, mac);
      && (r.Ok? && r.value.PushProcessed? ==> EventType(headers) == "push")
      && (r.Ok? && r.value.PullRequestProcessed? ==> EventType(headers) == "pull_request")
  {
  }
}
