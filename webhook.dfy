/** The Telegram webhook handler of src/telegram.js: choose the message of
    an update, take the command from its text (trim, split on spaces, drop
    empty pieces, lower-case the first), and pick exactly one reply from the
    if/else chain. Sending the reply is left out; the model says which reply
    it is, with the links it carries. */
module Webhook {
  import opened Common

  // ---------------------------------------------------------------- text

  /** The characters `String.prototype.trim` removes: ECMAScript WhiteSpace
      (tab, vertical tab, form feed, space, no-break space, the byte order
      mark and the space separators) and LineTerminator. */
  predicate IsJsSpace(c: char)
  {
    c in JsSpaces || '\U{2000}' <= c <= '\U{200A}'
  }

  /** The white space characters outside the range U+2000..U+200A. */
  const JsSpaces: set<char> := {'\t', '\n', '\U{000B}', '\U{000C}', '\r', ' ', '\U{00A0}', '\U{1680}',
                                '\U{2028}', '\U{2029}', '\U{202F}', '\U{205F}', '\U{3000}', '\U{FEFF}'}

  /** The first position at or after `i` that is not white space, or `|s|`. */
  function SkipSpaces(s: string, i: nat): (e: nat)
    requires i <= |s|
    ensures i <= e <= |s|
    ensures forall j :: i <= j < e ==> IsJsSpace(s[j])
    ensures e < |s| ==> !IsJsSpace(s[e])
    decreases |s| - i
  {
    if i == |s| || !IsJsSpace(s[i]) then i else SkipSpaces(s, i + 1)
  }

  /** The start of the run of white space that ends at position `j`. */
  function SkipSpacesBack(s: string, j: nat): (b: nat)
    requires j <= |s|
    ensures b <= j
    ensures forall k :: b <= k < j ==> IsJsSpace(s[k])
    ensures b > 0 ==> !IsJsSpace(s[b - 1])
    decreases j
  {
    if j == 0 || !IsJsSpace(s[j - 1]) then j else SkipSpacesBack(s, j - 1)
  }

  /** `s.trim()`: the text between the leading and the trailing white space. */
  function Trim(s: string): (r: string)
    ensures r == [] || (!IsJsSpace(r[0]) && !IsJsSpace(r[|r| - 1]))
    ensures r == [] <==> forall i :: 0 <= i < |s| ==> IsJsSpace(s[i])
  {
    var start := SkipSpaces(s, 0);
    if start == |s| then "" else s[start..SkipSpacesBack(s, |s|)]
  }

  /** Trimming removes only white space: the trimmed text sits inside `s`
      after its leading white space, with white space alone after it. */
  lemma TrimOnlyRemovesSpace(s: string)
    ensures var r := Trim(s);
            var i := SkipSpaces(s, 0);
            && i + |r| <= |s| && s[i..i + |r|] == r
            && (forall j :: i + |r| <= j < |s| ==> IsJsSpace(s[j]))
  {
    var start := SkipSpaces(s, 0);
    if start < |s| {
      assert Trim(s) == s[start..SkipSpacesBack(s, |s|)];
    }
  }

  /** Trimming a trimmed text changes nothing. */
  lemma TrimIdempotent(s: string)
    ensures Trim(Trim(s)) == Trim(s)
  {
    var r := Trim(s);
    if r != [] {
      assert SkipSpaces(r, 0) == 0;
      assert SkipSpacesBack(r, |r|) == |r|;
      assert r[0..|r|] == r;
    }
  }

  /** `s.split(" ")`: the pieces between single spaces, in order; a string
      without spaces is one piece, and "" is the one piece "". */
  function Split(s: string): (parts: seq<string>)
    ensures |parts| >= 1
    ensures forall i :: 0 <= i < |parts| ==> ' ' !in parts[i]
    decreases |s|
  {
    if s == [] then [""]
    else
      var rest := Split(s[1..]);
      if s[0] == ' ' then [""] + rest else [[s[0]] + rest[0]] + rest[1..]
  }

  /** `parts.join(" ")`, the inverse of `Split`. */
  function Join(parts: seq<string>): string
    decreases |parts|
  {
    if parts == [] then "" else if |parts| == 1 then parts[0] else parts[0] + " " + Join(parts[1..])
  }

  /** Joining the pieces again gives back the text. */
  lemma {:induction false} JoinSplit(s: string)
    ensures Join(Split(s)) == s
    decreases |s|
  {
    if s != [] {
      var rest := Split(s[1..]);
      JoinSplit(s[1..]);
      if s[0] == ' ' {
        assert Split(s) == [""] + rest;
        assert Join(Split(s)) == "" + " " + Join(rest);
      } else {
        if |rest| == 1 {
          assert Split(s) == [[s[0]] + rest[0]];
        } else {
          assert Split(s)[1..] == rest[1..];
          assert Join(rest) == rest[0] + " " + Join(rest[1..]);
        }
      }
    }
  }

  /** Splitting a join of space-free pieces gives back the pieces. */
  lemma {:induction false} SplitJoin(parts: seq<string>)
    requires |parts| >= 1
    requires forall i :: 0 <= i < |parts| ==> ' ' !in parts[i]
    ensures Split(Join(parts)) == parts
    decreases |parts|, |parts[0]|
  {
    var w := parts[0];
    if w == [] {
      if |parts| > 1 {
        assert Join(parts) == " " + Join(parts[1..]);
        SplitJoin(parts[1..]);
        assert (" " + Join(parts[1..]))[1..] == Join(parts[1..]);
      }
    } else {
      var tail := [w[1..]] + parts[1..];
      assert w[1..] == tail[0];
      forall i | 0 <= i < |tail| ensures ' ' !in tail[i] {
        if i > 0 { assert tail[i] == parts[i]; }
      }
      SplitJoin(tail);
      if |parts| == 1 {
        assert Join(parts) == w && Join(tail) == w[1..];
      } else {
        assert Join(tail) == w[1..] + " " + Join(parts[1..]);
        assert Join(parts) == w + " " + Join(parts[1..]);
        assert Join(parts)[1..] == Join(tail);
      }
      assert [w[0]] + w[1..] == w;
      assert Join(parts)[0] == w[0] && Join(parts) != [];
      assert [[w[0]] + w[1..]] + parts[1..] == parts;
    }
  }

  /** `.filter(Boolean)` on strings: the non-empty pieces, in order. */
  function NonEmpty(parts: seq<string>): (r: seq<string>)
    ensures forall i :: 0 <= i < |r| ==> r[i] != "" && r[i] in parts
    ensures forall x :: x in parts && x != "" ==> x in r
    decreases |parts|
  {
    if parts == [] then []
    else if parts[0] == "" then NonEmpty(parts[1..])
    else [parts[0]] + NonEmpty(parts[1..])
  }

  /** The words of a text: `text.split(" ").filter(Boolean)`. */
  function Tokens(s: string): seq<string>
  {
    NonEmpty(Split(s))
  }

  /** The words are non-empty and contain no space; there are none exactly
      when the text is all spaces. */
  lemma {:induction false} TokensShape(s: string)
    ensures forall i :: 0 <= i < |Tokens(s)| ==> Tokens(s)[i] != "" && ' ' !in Tokens(s)[i]
    ensures Tokens(s) == [] <==> forall i :: 0 <= i < |s| ==> s[i] == ' '
    decreases |s|
  {
    var t := Tokens(s);
    forall i | 0 <= i < |t| ensures t[i] != "" && ' ' !in t[i] {
      assert t[i] in Split(s);
    }
    if s != [] {
      TokensShape(s[1..]);
      var rest := Split(s[1..]);
      if s[0] == ' ' {
        assert Split(s) == [""] + rest;
        assert Tokens(s) == Tokens(s[1..]);
      } else {
        assert Split(s)[0] == [s[0]] + rest[0];
        assert Tokens(s) != [];
      }
    }
  }

  /** A word `w` after any run of spaces and before a space or the end is
      the first word. */
  lemma {:induction false} FirstToken(p: string, w: string, rest: string)
    requires forall i :: 0 <= i < |p| ==> p[i] == ' '
    requires w != "" && ' ' !in w
    requires rest == [] || rest[0] == ' '
    ensures Tokens(p + w + rest) != [] && Tokens(p + w + rest)[0] == w
    decreases |p|
  {
    if p == [] {
      assert p + w + rest == w + rest;
      WordThenRest(w, rest);
    } else {
      var s := p + w + rest;
      assert s[1..] == p[1..] + w + rest;
      FirstToken(p[1..], w, rest);
      assert Split(s) == [""] + Split(s[1..]);
    }
  }

  lemma {:induction false} WordThenRest(w: string, rest: string)
    requires ' ' !in w
    requires rest == [] || rest[0] == ' '
    ensures Split(w + rest)[0] == w
    decreases |w|
  {
    if w == [] {
      assert w + rest == rest;
    } else {
      assert (w + rest)[1..] == w[1..] + rest;
      WordThenRest(w[1..], rest);
      assert [w[0]] + w[1..] == w;
    }
  }

  /** `toLowerCase` on the characters whose lower case is ASCII: A-Z, and the
      Kelvin sign, whose lower case is `k`. Every other character is kept. */
  function LowerChar(c: char): char
  {
    if 'A' <= c <= 'Z' then (c as int + 32) as char
    else if c == '\U{212A}' then 'k'
    else c
  }

  function Lower(s: string): (r: string)
  {
    seq(|s|, i requires 0 <= i < |s| => LowerChar(s[i]))
  }

  /** Lower-casing maps A-Z to a-z and the Kelvin sign to `k`, keeps every
      other character, and changes nothing in a text already lower-cased. */
  lemma LowerIdempotent(s: string)
    ensures Lower(Lower(s)) == Lower(s)
    ensures |Lower(s)| == |s|
    ensures forall i :: 0 <= i < |s| ==> !('A' <= Lower(s)[i] <= 'Z')
    ensures forall i :: 0 <= i < |s| && 'A' <= s[i] <= 'Z' ==> Lower(s)[i] == (s[i] as int + 32) as char
    ensures forall i :: 0 <= i < |s| && s[i] == '\U{212A}' ==> Lower(s)[i] == 'k'
    ensures forall i :: 0 <= i < |s| && !('A' <= s[i] <= 'Z') && s[i] != '\U{212A}' ==> Lower(s)[i] == s[i]
  {
  }

  /** `parts[0]?.toLowerCase()` of the trimmed text: the lower-cased first
      word, or undefined when the text holds no word. */
  function Command(text: Option<string>): Option<string>
  {
    var parts := Tokens(Trim(OrEmpty(text)));
    if parts == [] then None else Some(Lower(parts[0]))
  }

  /** The command is the lower-cased first word after the leading white
      space, when a space or trailing white space alone follows the word
      (`"/help\t"` is the command `/help`). `CommandOfTrimmed` states it for
      every text; a text of white space only, or no text, has no command. */
  lemma CommandIsFirstWord(lead: string, w: string, rest: string)
    requires forall i :: 0 <= i < |lead| ==> IsJsSpace(lead[i])
    requires w != "" && ' ' !in w && !IsJsSpace(w[0]) && !IsJsSpace(w[|w| - 1])
    requires rest == [] || rest[0] == ' ' || forall i :: 0 <= i < |rest| ==> IsJsSpace(rest[i])
    ensures Command(Some(lead + w + rest)) == Some(Lower(w))
  {
    var s := lead + w + rest;
    assert s == lead + (w + rest);
    SkipLeadingSpaces(lead, w + rest);
    assert s[|lead|..] == w + rest;
    var r := TrimmedRest(s, |lead|, w, rest);
    CommandOfTrimmed(s, w, r);
  }

  /** For any text: when its trimmed form is a word `w` (which may hold white
      space other than a space) followed by a space or by nothing, the command
      is `w` lower-cased. Every text that is not all white space trims to such
      a form, with `w` the part before its first space. */
  lemma CommandOfTrimmed(text: string, w: string, r: string)
    requires Trim(text) == w + r
    requires w != "" && ' ' !in w
    requires r == [] || r[0] == ' '
    ensures Command(Some(text)) == Some(Lower(w))
  {
    FirstToken([], w, r);
    assert [] + w + r == w + r;
  }

  lemma SkipLeadingSpaces(lead: string, tail: string)
    requires forall i :: 0 <= i < |lead| ==> IsJsSpace(lead[i])
    requires tail != [] && !IsJsSpace(tail[0])
    ensures SkipSpaces(lead + tail, 0) == |lead|
  {
    var s := lead + tail;
    assert s[|lead|] == tail[0];
  }

  /** The trimmed text of `s`, whose white space ends at `k` where the word
      `w` and then `rest` start, is `w` followed by a space or nothing. */
  lemma TrimmedRest(s: string, k: nat, w: string, rest: string) returns (r: string)
    requires k + |w| + |rest| == |s| && s[k..] == w + rest && SkipSpaces(s, 0) == k
    requires w != [] && !IsJsSpace(w[|w| - 1])
    requires rest == [] || rest[0] == ' ' || forall i :: 0 <= i < |rest| ==> IsJsSpace(rest[i])
    ensures Trim(s) == w + r && (r == [] || r[0] == ' ')
  {
    var end := SkipSpacesBack(s, |s|);
    assert s[k + |w| - 1] == (w + rest)[|w| - 1] == w[|w| - 1];
    assert k + |w| <= end;
    var t := s[k..end];
    assert Trim(s) == t;
    assert t[..|w|] == w by {
      assert t[..|w|] == s[k..k + |w|];
      assert s[k..k + |w|] == (w + rest)[..|w|];
    }
    r := t[|w|..];
    assert t == w + r;
    if r != [] {
      assert r[0] == s[k + |w|] == (w + rest)[|w|];
    }
  }

  lemma BlankTextHasNoCommand(text: Option<string>)
    requires forall i :: 0 <= i < |OrEmpty(text)| ==> IsJsSpace(OrEmpty(text)[i])
    ensures Command(text) == None
  {
    TokensShape(Trim(OrEmpty(text)));
  }

  // ------------------------------------------------------------ updates

  /** A Telegram message: whether it has a `chat` object, its `text`, and
      the `id` of its `from` (undefined when either is missing). */
  datatype Message = Message(hasChat: bool, text: Option<string>, fromId: Option<int>)

  /** A callback query: the message its button is attached to, and its `data`. */
  datatype CallbackQuery = CallbackQuery(message: Option<Message>, data: string)

  datatype Update = Update(message: Option<Message>, callbackQuery: Option<CallbackQuery>)

  /** `update.message || (update.callback_query && update.callback_query.message)` */
  function SelectMessage(u: Update): Option<Message>
  {
    if u.message.Some? then u.message
    else if u.callbackQuery.Some? then u.callbackQuery.value.message
    else None
  }

  /** The process environment: `BASE_URL` and `ADMIN_TELEGRAM_ID`. */
  datatype Env = Env(baseUrl: Option<string>, adminId: Option<string>)

  /** The request: its parsed body and its `Host` header. */
  datatype Request = Request(body: Option<Update>, host: Option<string>)

  /** `SELECT wallet_coins FROM users WHERE telegram_id=$1`: the query
      fails, or gives each user's `wallet_coins` (possibly NULL). */
  datatype CoinsLookup = LookupFails | Rows(walletCoins: map<int, Option<int>>)

  /** The reply the handler sends, one per branch of the chain. */
  datatype Reply = Welcome | HelpText | TaskLink(url: string) | Balance(coins: int) | BalanceUnavailable
                 | WithdrawInstructions | ReferralLink(url: string) | RecentActivity
                 | ApprovalReceived | UnknownCommand

  datatype Response = Response(status: int, text: string)

  // -------------------------------------------------------------- links

  /** `${v}` of a value that may be undefined. */
  function TextOf(v: Option<string>): string
  {
    match v
    case None => "undefined"
    case Some(s) => s
  }

  function StartsWith(s: string, prefix: string): bool
  {
    |prefix| <= |s| && s[..|prefix|] == prefix
  }

  /** Whether `/https?:\/\//` matches at the start of `s`: `http`, then
      `s://` or `://`. */
  predicate HasScheme(s: string)
  {
    |s| >= 7 && s[0] == 'h' && s[1] == 't' && s[2] == 't' && s[3] == 'p'
    && if s[4] == 's' then |s| >= 8 && s[5] == ':' && s[6] == '/' && s[7] == '/'
       else s[4] == ':' && s[5] == '/' && s[6] == '/'
  }

  /** The length of that match: 8 for `https://`, 7 for `http://`. */
  function SchemeLength(s: string): (n: nat)
    requires HasScheme(s)
    ensures n <= |s|
  {
    if s[4] == 's' then 8 else 7
  }

  /** `s.replace(/https?:\/\//, "")`: remove the leftmost match, if any. */
  function StripScheme(s: string): string
    decreases |s|
  {
    if HasScheme(s) then s[SchemeLength(s)..]
    else if s == [] then s
    else [s[0]] + StripScheme(s[1..])
  }

  /** Without a match the text is kept as it is. */
  lemma {:induction false} StripSchemeNoMatch(s: string)
    requires forall j :: 0 <= j <= |s| ==> !HasScheme(s[j..])
    ensures StripScheme(s) == s
    decreases |s|
  {
    if s != [] {
      assert !HasScheme(s[0..]) by { assert s[0..] == s; }
      forall j | 0 <= j <= |s| - 1 ensures !HasScheme(s[1..][j..]) {
        assert s[1..][j..] == s[j + 1..];
      }
      StripSchemeNoMatch(s[1..]);
    }
  }

  /** With the leftmost match at `i`, exactly that match is removed. */
  lemma StripSchemeFirstMatch(s: string, i: nat)
    requires i <= |s| && HasScheme(s[i..])
    requires forall j :: 0 <= j < i ==> !HasScheme(s[j..])
    ensures i + SchemeLength(s[i..]) <= |s|
    ensures StripScheme(s) == s[..i] + s[i + SchemeLength(s[i..])..]
  {
    StripSchemeFrom(s, i, 0);
    assert s[0..] == s && s[0..i] == s[..i];
  }

  /** The same, for the text from position `k` on. */
  lemma {:induction false} StripSchemeFrom(s: string, i: nat, k: nat)
    requires k <= i <= |s| && HasScheme(s[i..])
    requires forall j :: k <= j < i ==> !HasScheme(s[j..])
    ensures i + SchemeLength(s[i..]) <= |s|
    ensures StripScheme(s[k..]) == s[k..i] + s[i + SchemeLength(s[i..])..]
    decreases i - k
  {
    var n := SchemeLength(s[i..]);
    if k == i {
      assert s[i..][n..] == s[i + n..];
    } else {
      assert !HasScheme(s[k..]);
      assert s[k..][1..] == s[k + 1..];
      StripSchemeFrom(s, i, k + 1);
      assert [s[k]] + s[k + 1..i] == s[k..i];
    }
  }

  /** `process.env.BASE_URL || req.headers.host`: an unset or empty
      `BASE_URL` falls back to the Host header. */
  function BaseOrHost(env: Env, host: Option<string>): string
  {
    if env.baseUrl.Some? && env.baseUrl.value != "" then env.baseUrl.value else TextOf(host)
  }

  /** The `/task` link: the base is used as it is, scheme included. */
  function TaskUrl(env: Env, host: Option<string>, userId: Option<int>): string
  {
    "https://" + BaseOrHost(env, host) + "/ad/TEST_TASK?userId=" + OptionalIntText(userId)
  }

  /** The `/referral` link: the base with its first scheme removed. */
  function ReferralUrl(env: Env, host: Option<string>, userId: Option<int>): string
  {
    var base := if env.baseUrl.Some? && env.baseUrl.value != "" then StripScheme(env.baseUrl.value)
                else TextOf(host);
    "https://" + base + "/r/" + OptionalIntText(userId)
  }

  /** A `BASE_URL` of `https://h` or `http://h` gives the referral link
      `https://h/r/<id>`, while the task link keeps the scheme and starts
      `https://https://` or `https://http://`. */
  lemma LinksAndSchemes(h: string, scheme: string, host: Option<string>, userId: Option<int>)
    requires scheme in {"https://", "http://"}
    ensures ReferralUrl(Env(Some(scheme + h), None), host, userId) == "https://" + h + "/r/" + OptionalIntText(userId)
    ensures TaskUrl(Env(Some(scheme + h), None), host, userId)
            == "https://" + scheme + h + "/ad/TEST_TASK?userId=" + OptionalIntText(userId)
  {
    var env := Env(Some(scheme + h), None);
    var u := OptionalIntText(userId);
    assert ReferralUrl(env, host, userId) == "https://" + StripScheme(scheme + h) + "/r/" + u;
    StripLeadingScheme(h, scheme);
    assert TaskUrl(env, host, userId) == "https://" + (scheme + h) + "/ad/TEST_TASK?userId=" + u;
    assert "https://" + (scheme + h) == "https://" + scheme + h;
  }

  lemma StripLeadingScheme(h: string, scheme: string)
    requires scheme in {"https://", "http://"}
    ensures StripScheme(scheme + h) == h
  {
    var b := scheme + h;
    assert b[..|scheme|] == scheme;
    assert HasScheme(b) && SchemeLength(b) == |scheme|;
    assert b[|scheme|..] == h;
  }

  /** Without `BASE_URL` both links are built on the Host header. */
  lemma LinksWithoutBaseUrl(admin: Option<string>, host: string, userId: Option<int>)
    ensures ReferralUrl(Env(None, admin), Some(host), userId) == "https://" + host + "/r/" + OptionalIntText(userId)
    ensures TaskUrl(Env(None, admin), Some(host), userId) == "https://" + host + "/ad/TEST_TASK?userId=" + OptionalIntText(userId)
  {
  }

  // ----------------------------------------------------------- dispatch

  /** `String(process.env.ADMIN_TELEGRAM_ID || "")` */
  function AdminId(env: Env): string
  {
    OrEmpty(env.adminId)
  }

  /** `/approve` is honoured when the command starts with `/approve` and the
      sender's id, as text, is the configured admin id. */
  predicate AdminApproves(env: Env, command: Option<string>, userId: Option<int>)
  {
    command.Some? && StartsWith(command.value, "/approve") && OptionalIntText(userId) == AdminId(env)
  }

  /** The coins `/balance` reports: `rows[0] ? Number(rows[0].wallet_coins) : 0`. */
  function BalanceReply(coins: CoinsLookup, userId: Option<int>): Reply
  {
    match coins
    case LookupFails => BalanceUnavailable
    case Rows(rows) =>
      if userId.Some? && userId.value in rows then
        Balance(match rows[userId.value] case None => 0 case Some(n) => n)
      else Balance(0)
  }

  /** The commands with a branch of their own before the admin check. */
  const Commands := {"/start", "/help", "/task", "/balance", "/withdraw", "/referral", "/history"}

  /** The if/else chain on the message's command and sender id: the first
      branch whose test holds sends the reply. */
  function Dispatch(env: Env, host: Option<string>, coins: CoinsLookup, command: Option<string>, userId: Option<int>): Reply
  {
    if command == Some("/start") then Welcome
    else if command == Some("/help") then HelpText
    else if command == Some("/task") then TaskLink(TaskUrl(env, host, userId))
    else if command == Some("/balance") then BalanceReply(coins, userId)
    else if command == Some("/withdraw") then WithdrawInstructions
    else if command == Some("/referral") then ReferralLink(ReferralUrl(env, host, userId))
    else if command == Some("/history") then RecentActivity
    else if AdminApproves(env, command, userId) then ApprovalReceived
    else UnknownCommand
  }

  /** The whole handler: the reply sent, if any, and the HTTP response. A
      missing body or a message without `chat` throws, and the handler answers
      500 "error". */
  function Handle(env: Env, req: Request, coins: CoinsLookup): (Option<Reply>, Response)
  {
    match req.body
    case None => (None, Response(500, "error"))
    case Some(u) =>
      match SelectMessage(u)
      case None => (None, Response(200, "no message"))
      case Some(m) =>
        if !m.hasChat then (None, Response(500, "error"))
        else (Some(Dispatch(env, req.host, coins, Command(m.text), m.fromId)), Response(200, "ok"))
  }

  /** An update with neither a message nor a callback query's message sends
      nothing and answers 200 "no message"; one with a message (and chat)
      sends exactly the reply of the chain and answers 200 "ok". */
  lemma HandleOutcomes(env: Env, req: Request, coins: CoinsLookup)
    requires req.body.Some?
    ensures var u := req.body.value;
            var (reply, resp) := Handle(env, req, coins);
            && (u.message.None? && (u.callbackQuery.None? || u.callbackQuery.value.message.None?) ==>
                  reply == None && resp == Response(200, "no message"))
            && (SelectMessage(u).Some? && SelectMessage(u).value.hasChat ==>
                  var m := SelectMessage(u).value;
                  reply == Some(Dispatch(env, req.host, coins, Command(m.text), m.fromId)) && resp == Response(200, "ok"))
  {
  }

  /** A button press is handled on the text of the message the button is
      attached to: its `callback_data` never matters. */
  lemma CallbackUsesMessageText(env: Env, host: Option<string>, coins: CoinsLookup, m: Option<Message>, data: string, data': string)
    ensures Handle(env, Request(Some(Update(None, Some(CallbackQuery(m, data)))), host), coins)
         == Handle(env, Request(Some(Update(m, None)), host), coins)
    ensures Handle(env, Request(Some(Update(None, Some(CallbackQuery(m, data)))), host), coins)
         == Handle(env, Request(Some(Update(None, Some(CallbackQuery(m, data')))), host), coins)
  {
  }

  /** The admin branch is taken exactly when no earlier branch matches, the
      command starts with `/approve` (`/approvex` too) and the sender is the
      admin; every other command falls through to "Unknown command". */
  lemma ApproveGate(env: Env, host: Option<string>, coins: CoinsLookup, command: Option<string>, userId: Option<int>)
    ensures Dispatch(env, host, coins, command, userId) == ApprovalReceived <==> AdminApproves(env, command, userId)
    ensures Dispatch(env, host, coins, command, userId) == UnknownCommand <==>
              (command.None? || command.value !in Commands) && !AdminApproves(env, command, userId)
  {
    if command.Some? && StartsWith(command.value, "/approve") {
      ApproveIsNoOtherCommand(command.value);
    }
  }

  lemma ApproveIsNoOtherCommand(c: string)
    requires StartsWith(c, "/approve")
    ensures c !in Commands
  {
    assert c[1] == 'a';
  }

  /** Without a configured admin id nobody passes the gate, and with one at
      most one sender does: distinct senders have distinct id texts. */
  lemma AdminGateUnique(env: Env, command: Option<string>, a: Option<int>, b: Option<int>)
    ensures AdminId(env) == "" ==> !AdminApproves(env, command, a)
    ensures AdminApproves(env, command, a) && AdminApproves(env, command, b) ==> a == b
  {
    if AdminApproves(env, command, a) && AdminApproves(env, command, b) {
      match a {
        case None =>
          if b.Some? { IdTextNotUndefined(b.value); }
        case Some(x) =>
          if b.None? { IdTextNotUndefined(x); } else { IntTextInjective(x, b.value); }
      }
    }
  }

  lemma IdTextNotUndefined(n: int)
    ensures IntText(n) != "undefined"
  {
    var s := IntText(n);
    if n < 0 { assert s[0] == '-'; } else { assert IsDigit(s[0]); }
  }

  /** A message without text, or with only white space, gets "Unknown
      command" from anyone but the admin... and from the admin too, since
      there is no command to start with `/approve`. */
  lemma BlankTextIsUnknown(env: Env, host: Option<string>, coins: CoinsLookup, m: Message)
    requires forall i :: 0 <= i < |OrEmpty(m.text)| ==> IsJsSpace(OrEmpty(m.text)[i])
    ensures Dispatch(env, host, coins, Command(m.text), m.fromId) == UnknownCommand
  {
    BlankTextHasNoCommand(m.text);
  }

  /** `/balance` for a user without a row, or with a NULL `wallet_coins`,
      reports 0 coins. */
  lemma MissingRowReportsZero(rows: map<int, Option<int>>, userId: Option<int>)
    requires userId.None? || userId.value !in rows || rows[userId.value] == None
    ensures BalanceReply(Rows(rows), userId) == Balance(0)
  {
  }
}
