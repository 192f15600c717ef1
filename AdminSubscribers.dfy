/**
 * The subscriber management page: it sends visitors without a stored token
 * back to the login page, loads the listing with the stored token, copies
 * the subscribers' emails, builds the HTML newsletter template and logs out.
 */
module AdminSubscribers {
  import opened Optional
  import opened Strings
  import Auth
  import Base64
  import Browser
  import Subscriptions
  import AdminLogin

  const LoginPath: string := "/admin/login"
  const NotAuthenticated: string := "Not authenticated"
  const AuthenticationFailed: string := "Authentication failed"
  const CopiedToast: string := "Copied!"
  const CopiedSuffix: string := " email addresses copied to clipboard"
  const TemplateToast: string := "Email HTML Copied!"
  const LoggedOutToast: string := "Logged out"
  const Separator: string := ", "

  // ---------------------------------------------------------------------------
  // copying the emails

  /** `subscribers.map(s => s.email)`. */
  function EmailsOf(subs: seq<Subscriptions.Subscriber>): (emails: seq<string>)
    ensures |emails| == |subs| && forall i :: 0 <= i < |subs| ==> emails[i] == subs[i].email
  {
    seq(|subs|, i requires 0 <= i < |subs| => subs[i].email)
  }

  /** What `copyEmails` writes to the clipboard and the toast it shows; nothing while the data is undefined. */
  datatype Copied = Copied(text: string, description: string)

  function CopyEmails(data: Option<seq<Subscriptions.Subscriber>>): (r: Option<Copied>)
    ensures r.Some? <==> data.Some?
  {
    if data.None? then None
    else Some(Copied(Join(EmailsOf(data.value), Separator), Decimal(|data.value|) + CopiedSuffix))
  }

  /**
   * The copied text is the emails in list order with `, ` between neighbours
   * and nothing else: the `i`-th email sits at its offset (this lemma), a
   * separator follows every email but the last (`CopiedSeparatorAt`), and the
   * text ends with the last email (`CopiedLength`).
   */
  lemma CopiedEmailAt(subs: seq<Subscriptions.Subscriber>, i: nat)
    requires i < |subs|
    ensures var text := CopyEmails(Some(subs)).value.text;
      var at := Offset(EmailsOf(subs), Separator, i);
      at + |subs[i].email| <= |text| && text[at..at + |subs[i].email|] == subs[i].email
  {
    JoinPieceAt(EmailsOf(subs), Separator, i);
  }

  lemma CopiedSeparatorAt(subs: seq<Subscriptions.Subscriber>, i: nat)
    requires i + 1 < |subs|
    ensures var text := CopyEmails(Some(subs)).value.text;
      var emails := EmailsOf(subs);
      Offset(emails, Separator, i + 1) <= |text|
      && text[Offset(emails, Separator, i) + |subs[i].email|..Offset(emails, Separator, i + 1)] == Separator
  {
    JoinSeparatorAt(EmailsOf(subs), Separator, i);
  }

  lemma CopiedLength(subs: seq<Subscriptions.Subscriber>)
    requires |subs| > 0
    ensures |CopyEmails(Some(subs)).value.text| == Offset(EmailsOf(subs), Separator, |subs| - 1) + |subs[|subs| - 1].email|
  {
    JoinLength(EmailsOf(subs), Separator);
  }

  /** Emails without a comma come back one by one when the copied text is split at the commas. */
  lemma CopiedSplitsBack(subs: seq<Subscriptions.Subscriber>)
    requires |subs| > 0
    requires forall i :: 0 <= i < |subs| ==> ',' !in subs[i].email
    ensures var pieces := Split(CopyEmails(Some(subs)).value.text, ',');
      |pieces| == |subs| && pieces[0] == subs[0].email
      && forall i :: 1 <= i < |subs| ==> pieces[i] == " " + subs[i].email
  {
    var emails := EmailsOf(subs);
    var spaced := seq(|subs|, i requires 0 <= i < |subs| => if i == 0 then emails[0] else " " + emails[i]);
    JoinSpaced(emails, spaced);
    SplitJoin(spaced, ',');
  }

  /** Joining with `, ` is joining with `,` after a space is put before every piece but the first. */
  lemma {:induction false} JoinSpaced(emails: seq<string>, spaced: seq<string>)
    requires |emails| > 0 && |spaced| == |emails| && spaced[0] == emails[0]
    requires forall i :: 1 <= i < |emails| ==> spaced[i] == " " + emails[i]
    ensures Join(emails, Separator) == Join(spaced, [','])
    ensures forall i :: 0 <= i < |spaced| ==> (',' !in emails[i] ==> ',' !in spaced[i])
  {
    if |emails| > 1 {
      var tail := [" " + emails[1]] + spaced[2..];
      assert tail == [" " + emails[1]] + spaced[1..][1..];
      JoinSpacedTail(emails[1..], spaced[1..]);
      assert Join(emails, Separator) == emails[0] + Separator + Join(emails[1..], Separator);
      assert Join(spaced, [',']) == spaced[0] + [','] + Join(spaced[1..], [',']);
    }
  }

  /** The same for a tail, where the first piece carries its space too. */
  lemma {:induction false} JoinSpacedTail(emails: seq<string>, spaced: seq<string>)
    requires |emails| > 0 && |spaced| == |emails|
    requires forall i :: 0 <= i < |emails| ==> spaced[i] == " " + emails[i]
    ensures " " + Join(emails, Separator) == Join(spaced, [','])
  {
    if |emails| > 1 {
      JoinSpacedTail(emails[1..], spaced[1..]);
      assert Join(emails, Separator) == emails[0] + Separator + Join(emails[1..], Separator);
      assert Join(spaced, [',']) == spaced[0] + [','] + Join(spaced[1..], [',']);
    }
  }

  /** `subscribers?.length || 0`. */
  function HeaderCount(data: Option<seq<Subscriptions.Subscriber>>): nat {
    if data.Some? then |data.value| else 0
  }

  /** The toast's number is the header's count, which is the length of the list. */
  lemma CopiedCountIsHeaderCount(subs: seq<Subscriptions.Subscriber>)
    ensures var d := CopyEmails(Some(subs)).value.description;
      |Decimal(HeaderCount(Some(subs)))| <= |d|
      && ParseDecimal(d[..|Decimal(HeaderCount(Some(subs)))|]) == Some(|subs|)
      && d[|Decimal(HeaderCount(Some(subs)))|..] == CopiedSuffix
  {
    var d := CopyEmails(Some(subs)).value.description;
    assert d[..|Decimal(|subs|)|] == Decimal(|subs|);
    ParseDecimalOfDecimal(|subs|);
  }

  // ---------------------------------------------------------------------------
  // the email template

  const TemplateHead: string :=
    "<!DOCTYPE html>\n<html>\n<head>\n  <style>\n"
    + ("    body { font-family: Arial, sans-serif; max-width: 600px; margin: 0 auto; }\n"
    + ("    .header { background: linear-gradient(135deg, #D4A574 0%, #8B7355 100%); color: white; padding: 30px; text-align: center; }\n"
    + ("    .content { padding: 30px; background: #f9f9f9; }\n"
    + ("    .footer { padding: 20px; text-align: center; font-size: 12px; color: #666; }\n"
    + "  </style>\n</head>\n<body>\n  <div class=\"header\">\n    <h1>The Sixth Rift</h1>\n    <p>"))))
  const TemplateMiddle: string := "</p>\n  </div>\n  <div class=\"content\">\n    "
  const TemplateTail: string :=
    "\n  </div>\n  <div class=\"footer\">\n"
    + "    <p>You're receiving this because you subscribed to The Sixth Rift newsletter</p>\n"
    + "    <p>\U{00A9} 2025 The Sixth Rift - Creating music beyond dimensions</p>\n"
    + "  </div>\n</body>\n</html>"
  const LineBreak: string := "<br>"

  /** `emailContent.replace(/\n/g, '<br>')`. */
  function ContentHtml(content: string): (html: string)
    ensures '\n' !in html
  {
    ReplaceAll(content, '\n', LineBreak)
  }

  /** The template literal before `.trim()`: it opens with a newline and closes with a newline and indentation. */
  function RawTemplate(subject: string, content: string): string {
    "\n" + TemplateHead + subject + TemplateMiddle + ContentHtml(content) + TemplateTail + "\n    "
  }

  /** `generateEmailTemplate`'s text. */
  function EmailTemplate(subject: string, content: string): string {
    Trim(RawTemplate(subject, content))
  }

  /** The fixed markup starts and ends with a tag, so `trim` stops at it. */
  lemma TemplateEnds()
    ensures |TemplateHead| > 0 && TemplateHead[0] == '<'
    ensures |TemplateTail| > 0 && TemplateTail[|TemplateTail| - 1] == '>'
  {
  }

  lemma FrameTrimmed(head: string, subject: string, middle: string, html: string, tail: string)
    requires |head| > 0 && !IsJsWhitespace(head[0])
    requires |tail| > 0 && !IsJsWhitespace(tail[|tail| - 1])
    ensures Trim("\n" + head + subject + middle + html + tail + "\n    ") == head + subject + middle + html + tail
  {
    var body := head + subject + middle + html + tail;
    assert body[0] == head[0];
    assert body[|body| - 1] == tail[|tail| - 1];
    assert "\n" + head + subject + middle + html + tail + "\n    " == "\n" + body + "\n    ";
    Trimmed("\n", body, "\n    ");
  }

  /**
   * Trimming removes only the literal's outer margins, whatever the subject and
   * content: the result is the fixed markup with the subject and the converted
   * content in their places.
   */
  lemma EmailTemplateLayout(subject: string, content: string)
    ensures EmailTemplate(subject, content)
      == TemplateHead + subject + TemplateMiddle + ContentHtml(content) + TemplateTail
  {
    TemplateEnds();
    FrameTrimmed(TemplateHead, subject, TemplateMiddle, ContentHtml(content), TemplateTail);
  }

  lemma PrefixThen(head: string, subject: string, middle: string, html: string, tail: string)
    ensures var t := head + subject + middle + html + tail;
      |head| + |subject| <= |t| && t[..|head|] == head && t[|head|..|head| + |subject|] == subject
  {
    var t := head + subject + middle + html + tail;
    assert t == head + subject + (middle + html + tail);
  }

  /** The subject appears verbatim right after the heading markup: nothing is escaped. */
  lemma SubjectVerbatim(subject: string, content: string)
    ensures var t := EmailTemplate(subject, content);
      |TemplateHead| + |subject| <= |t| && t[..|TemplateHead|] == TemplateHead
      && t[|TemplateHead|..|TemplateHead| + |subject|] == subject
  {
    EmailTemplateLayout(subject, content);
    PrefixThen(TemplateHead, subject, TemplateMiddle, ContentHtml(content), TemplateTail);
  }

  /** Every line break becomes `<br>`: the substituted content is the lines joined by `<br>`. */
  lemma {:induction false} ContentLines(content: string)
    ensures ContentHtml(content) == Join(Split(content, '\n'), LineBreak)
  {
    if |content| > 0 {
      ContentLines(content[1..]);
      var rest := Split(content[1..], '\n');
      HeadTail(content);
      ReplaceAllAppend([content[0]], content[1..], '\n', LineBreak);
      if content[0] == '\n' {
        assert ReplaceAll([content[0]], '\n', LineBreak) == LineBreak;
        assert Split(content, '\n') == [""] + rest;
      } else {
        assert ReplaceAll([content[0]], '\n', LineBreak) == [content[0]];
        JoinConsFirst(content[0], rest, LineBreak);
      }
    }
  }

  lemma JoinConsFirst(c: char, parts: seq<string>, sep: string)
    requires |parts| > 0
    ensures Join([[c] + parts[0]] + parts[1..], sep) == [c] + Join(parts, sep)
  {
    var q := [[c] + parts[0]] + parts[1..];
    assert q[0] == [c] + parts[0];
    assert q[1..] == parts[1..];
    if |parts| > 1 {
      var j := Join(parts[1..], sep);
      assert Join(q, sep) == q[0] + sep + j;
      assert Join(parts, sep) == parts[0] + sep + j;
      assert q[0] + sep + j == [c] + (parts[0] + sep + j);
    }
  }

  /** Content without line breaks is inserted unchanged. */
  lemma PlainContentVerbatim(subject: string, content: string)
    requires '\n' !in content
    ensures EmailTemplate(subject, content) == TemplateHead + subject + TemplateMiddle + content + TemplateTail
  {
    EmailTemplateLayout(subject, content);
    ReplaceAllAbsent(content, '\n', LineBreak);
  }

  /** `disabled={!emailSubject || !emailContent}`. */
  predicate GenerateDisabled(subject: string, content: string) {
    subject == "" || content == ""
  }

  // ---------------------------------------------------------------------------
  // the listing request

  /** What `fetch("/api/subscribers")` settles to: a response (its `ok`, and its JSON when ok) or a rejection. */
  datatype ListingResponse = Listed(ok: bool, body: seq<Subscriptions.Subscriber>) | ListingRejected

  /** How `queryFn` ends: with the listing, with one of its own errors, or with `fetch`'s rejection. */
  datatype QueryResult = Loaded(subscribers: seq<Subscriptions.Subscriber>) | QueryFailed(message: string) | FetchFailed

  /** The modelled server's answer to the page's request, as the page sees it. */
  function ServerListing(subs: seq<Subscriptions.Subscriber>, env: Auth.Env, storageFails: bool, authorization: string): ListingResponse {
    match Subscriptions.ListSubscribers(subs, Some(authorization), env, storageFails)
    case ListOk(listed) => Listed(true, listed)
    case _ => Listed(false, [])
  }

  /**
   * After a login with the configured pair (ASCII, no colons) the page's request
   * with the stored token yields the whole store in storage order, unless storage fails.
   */
  lemma LoggedInSeesStore(subs: seq<Subscriptions.Subscriber>, env: Auth.Env, storageFails: bool)
    requires Base64.IsAscii(Auth.ExpectedUsername(env)) && Base64.IsAscii(Auth.ExpectedPassword(env))
    requires ':' !in Auth.ExpectedUsername(env) && ':' !in Auth.ExpectedPassword(env)
    ensures var token := AdminLogin.CredentialsToken(Auth.ExpectedUsername(env), Auth.ExpectedPassword(env));
      token.Some? &&
      ServerListing(subs, env, storageFails, AdminLogin.AuthorizationHeader(token.value))
        == (if storageFails then Listed(false, []) else Listed(true, subs))
  {
    var u, p := Auth.ExpectedUsername(env), Auth.ExpectedPassword(env);
    AdminLogin.LoginRoundTrip(u, p);
    AdminLogin.HeaderHasBasicPrefix(AdminLogin.CredentialsToken(u, p).value);
  }

  /** The page's state over the browser session it shares with the login page. */
  class AdminSubscribersPage {
    const session: Browser.Session
    var emailSubject: string
    var emailContent: string
    /** Title of the last toast shown. */
    var toast: Option<string>
    /** The last text written to the clipboard. */
    var clipboard: Option<string>

    constructor (session: Browser.Session)
      ensures this.session == session
      ensures emailSubject == "" && emailContent == "" && toast == None && clipboard == None
    {
      this.session := session;
      emailSubject := "";
      emailContent := "";
      toast := None;
      clipboard := None;
    }

    /** The mount effect: without a truthy `adminAuth` the router goes to the login page. */
    method GuardSession()
      modifies session`location
      ensures session.location == if old(session.HasAdminAuth()) then old(session.location) else LoginPath
    {
      if !session.HasAdminAuth() {
        session.SetLocation(LoginPath);
      }
    }

    /**
     * `queryFn`, with `fetch` given as the response to each `Authorization` header.
     * Without a token nothing is requested; a non-ok response drops the token and
     * goes to the login page; an ok response yields its JSON.
     */
    method FetchSubscribers(fetch: string -> ListingResponse) returns (request: Option<string>, result: QueryResult)
      modifies session
      ensures !old(session.HasAdminAuth()) ==>
        request == None && result == QueryFailed(NotAuthenticated)
        && session.storage == old(session.storage) && session.location == old(session.location)
      ensures old(session.HasAdminAuth()) ==>
        var header := Auth.Prefix + old(session.storage)[Browser.AuthKey];
        request == Some(header)
        && (fetch(header).Listed? && fetch(header).ok ==>
              result == Loaded(fetch(header).body)
              && session.storage == old(session.storage) && session.location == old(session.location))
        && (fetch(header).Listed? && !fetch(header).ok ==>
              result == QueryFailed(AuthenticationFailed)
              && session.storage == old(session.storage) - {Browser.AuthKey} && session.location == LoginPath)
        && (fetch(header).ListingRejected? ==>
              result == FetchFailed
              && session.storage == old(session.storage) && session.location == old(session.location))
    {
      if !session.HasAdminAuth() {
        return None, QueryFailed(NotAuthenticated);
      }
      var header := Auth.Prefix + session.storage[Browser.AuthKey];
      request := Some(header);
      var response := fetch(header);
      if response.ListingRejected? {
        result := FetchFailed;
      } else if !response.ok {
        session.RemoveItem(Browser.AuthKey);
        session.SetLocation(LoginPath);
        result := QueryFailed(AuthenticationFailed);
      } else {
        result := Loaded(response.body);
      }
    }

    /** `copyEmails` for the query's data. */
    method CopyAllEmails(data: Option<seq<Subscriptions.Subscriber>>)
      modifies this`clipboard, this`toast
      ensures data.None? ==> clipboard == old(clipboard) && toast == old(toast)
      ensures data.Some? ==>
        clipboard == Some(CopyEmails(data).value.text) && toast == Some(CopiedToast)
    {
      var copied := CopyEmails(data);
      if copied.Some? {
        clipboard := Some(copied.value.text);
        toast := Some(CopiedToast);
      }
    }

    method SetSubject(value: string)
      modifies this`emailSubject
      ensures emailSubject == value
    {
      emailSubject := value;
    }

    method SetContent(value: string)
      modifies this`emailContent
      ensures emailContent == value
    {
      emailContent := value;
    }

    /** A click on the Generate button: a disabled button does nothing, an enabled one copies the template. */
    method ClickGenerate()
      modifies this`clipboard, this`toast
      ensures GenerateDisabled(emailSubject, emailContent) ==> clipboard == old(clipboard) && toast == old(toast)
      ensures !GenerateDisabled(emailSubject, emailContent) ==>
        emailSubject != "" && emailContent != ""
        && clipboard == Some(EmailTemplate(emailSubject, emailContent)) && toast == Some(TemplateToast)
    {
      if !GenerateDisabled(emailSubject, emailContent) {
        var template := EmailTemplate(emailSubject, emailContent);
        clipboard := Some(template);
        toast := Some(TemplateToast);
      }
    }

    /** The Logout button. */
    method Logout()
      modifies this`toast, session
      ensures session.storage == old(session.storage) - {Browser.AuthKey}
      ensures !session.HasAdminAuth()
      ensures session.location == LoginPath && toast == Some(LoggedOutToast)
    {
      session.RemoveItem(Browser.AuthKey);
      session.SetLocation(LoginPath);
      toast := Some(LoggedOutToast);
    }
  }
}
