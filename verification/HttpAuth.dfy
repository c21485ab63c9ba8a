// The HTTP listener's view of a printed proxy password: the decoded credentials
// are cut at their colons first, and only what stands between the first two is
// split at its dashes.
module HttpAuth {
  import opened Strings
  import opened Tags
  import opened ProxyString
  import opened Wrappers

  function TrimLeft(s: string): string
  {
    if s != "" && s[0] == ' ' then TrimLeft(s[1..]) else s
  }

  function TrimRight(s: string): string
  {
    if s != "" && s[|s| - 1] == ' ' then TrimRight(s[..|s| - 1]) else s
  }

  /** strings.Trim of spaces. */
  function Trim(s: string): string
  {
    TrimRight(TrimLeft(s))
  }

  lemma {:induction false} TrimLeftIs(s: string) returns (n: nat)
    ensures n <= |s| && TrimLeft(s) == s[n..] && (forall i :: 0 <= i < n ==> s[i] == ' ')
    ensures TrimLeft(s) != "" ==> TrimLeft(s)[0] != ' '
  {
    if s != "" && s[0] == ' ' {
      n := TrimLeftIs(s[1..]);
      n := n + 1;
    } else {
      n := 0;
    }
  }

  lemma {:induction false} TrimRightIs(s: string) returns (n: nat)
    ensures n <= |s| && TrimRight(s) == s[..n] && (forall i :: n <= i < |s| ==> s[i] == ' ')
    ensures TrimRight(s) != "" ==> TrimRight(s)[|TrimRight(s)| - 1] != ' '
  {
    if s != "" && s[|s| - 1] == ' ' {
      n := TrimRightIs(s[..|s| - 1]);
    } else {
      n := |s|;
    }
  }

  /** Trimming takes away the spaces at both ends and nothing else. */
  lemma TrimIs(s: string) returns (a: nat, b: nat)
    ensures a <= b <= |s| && Trim(s) == s[a..b]
    ensures forall i :: 0 <= i < a || b <= i < |s| ==> s[i] == ' '
    ensures a < b ==> s[a] != ' ' && s[b - 1] != ' '
  {
    a := TrimLeftIs(s);
    var n := TrimRightIs(s[a..]);
    b := a + n;
    assert s[a..][..n] == s[a..b];
    forall i | b <= i < |s| ensures s[i] == ' ' {
      assert s[a..][i - a] == s[i];
    }
  }

  /** What the tag loop runs over; the credentials hold at least one colon. */
  function HttpTokens(credentials: string): seq<string>
    requires |Split(Trim(credentials), ':')| >= 2
  {
    Split(Split(Trim(credentials), ':')[1], '-')
  }

  /** The part of BasicAuth between the decoding and the validator: the user, the
      password to validate and the tag. Missing colons and trailing keywords are
      index panics. */
  method BasicAuthTag(credentials: string) returns (user: string, password: string, r: HttpScan)
    ensures |Split(Trim(credentials), ':')| < 2 ==> r == IndexPanic
    ensures |Split(Trim(credentials), ':')| >= 2 ==>
      var tokens := HttpTokens(credentials);
      && user == Split(Trim(credentials), ':')[0] && password == tokens[0]
      && r == if IsKeyword(tokens[|tokens| - 1]) then IndexPanic else Tagged(ScanTag(tokens))
  {
    var u := Split(Trim(credentials), ':');
    user, password := u[0], "";
    if |u| < 2 {
      return user, password, IndexPanic;
    }
    var tagArray := Split(u[1], '-');
    password := tagArray[0];
    r := ScanHttp(tagArray);
  }

  // ---- where the colons cut --------------------------------------------

  /** The text before the first colon. */
  function Before(s: string): string
  {
    if s == "" || s[0] == ':' then "" else [s[0]] + Before(s[1..])
  }

  lemma {:induction false} BeforeIsFirst(s: string)
    ensures Split(s, ':')[0] == Before(s)
    ensures ':' !in Before(s) && (':' !in s ==> Before(s) == s)
  {
    if s != "" {
      BeforeIsFirst(s[1..]);
      assert s == [s[0]] + s[1..];
    }
  }

  lemma {:induction false} BeforeConcat(a: string, b: string)
    ensures Before(a + b) == if ':' in a then Before(a) else a + Before(b)
  {
    if a == "" {
      assert a + b == b;
    } else {
      assert (a + b)[1..] == a[1..] + b;
      assert a == [a[0]] + a[1..];
      BeforeConcat(a[1..], b);
      if a[0] != ':' && ':' !in a {
        assert [a[0]] + (a[1..] + Before(b)) == a + Before(b);
      }
    }
  }

  lemma TrimNothing(s: string)
    requires s != "" && s[0] != ' ' && s[|s| - 1] != ' '
    ensures Trim(s) == s
  {}

  /** The credentials a client sends for a printed password. */
  function Credentials(user: string, password: string, config: string): string
  {
    user + ":" + password + config
  }

  /** For an issued user the tokens are those of the text before the first colon
      of the password and the config. */
  lemma TokensBeforeColon(user: string, text: string)
    requires IsIssued(user) && text != "" && text[|text| - 1] != ' '
    ensures |Split(Trim(user + ":" + text), ':')| >= 2
    ensures Split(Trim(user + ":" + text), ':')[0] == user
    ensures HttpTokens(user + ":" + text) == Split(Before(text), '-')
  {
    var s := user + ":" + text;
    assert IsHex(user[0]) && s[0] == user[0];
    TrimNothing(s);
    assert s == user + [':'] + text;
    HexColon(user);
    SplitFree(user, ':');
    SplitConcat(user, ':', text);
    BeforeIsFirst(text);
  }

  lemma HexColon(s: string)
    requires forall i :: 0 <= i < |s| ==> IsHex(s[i])
    ensures ':' !in s && '-' !in s
  {}

  // ---- the tag through the HTTP listener -------------------------------

  /** The value that holds the first colon, in the order of printing. */
  function FirstCut(countryCode: string, city: string, state: string): string
  {
    if ':' in countryCode then countryCode else if ':' in state then state else city
  }

  function LastToken(s: string): string
  {
    var tokens := Split(s, '-');
    tokens[|tokens| - 1]
  }

  lemma LifetimePlain(d: Option<int>)
    ensures LifetimeText(d) != "" && ':' !in LifetimeText(d) && LifetimeText(d)[|LifetimeText(d)| - 1] != ' '
  {
    var n := if d.Some? && d.value <= 0 then -d.value else 60;
    assert forall i :: 0 <= i < |Digits(n)| ==> IsDigit(Digits(n)[i]);
    if d.None? || d.value >= 0 {
      SixtyOrZero(d);
      assert forall i :: 0 <= i < |LifetimeText(d)| ==> IsDigit(LifetimeText(d)[i]);
    }
  }

  lemma CutWithin(front: string, value: string, rest: string)
    requires ':' !in front && ':' in value
    ensures Before(front + (value + rest)) == front + Before(value)
  {
    BeforeConcat(front, value + rest);
    BeforeConcat(value, rest);
  }

  lemma LastBehind(front: string, text: string)
    ensures LastToken(front + ['-'] + text) == LastToken(text)
  {
    SplitConcat(front, '-', text);
  }

  lemma FieldPieces(base: string, key: string, value: string, rest: string)
    requires value != ""
    ensures base + FieldText(key, value) + rest == base + "-" + key + "-" + (value + rest)
  {}

  /** One printed field: a colon cuts it within its value. */
  lemma FieldCut(base: string, key: string, value: string, rest: string)
    requires ':' !in base && ':' !in key
    ensures ':' in value ==>
      && Before(base + FieldText(key, value) + rest) == base + "-" + key + "-" + Before(value)
      && LastToken(Before(base + FieldText(key, value) + rest)) == LastToken(Before(value))
    ensures ':' !in value ==> ':' !in base + FieldText(key, value)
  {
    if ':' in value {
      FieldPieces(base, key, value, rest);
      CutWithin(base + "-" + key + "-", value, rest);
      LastBehind(base + "-" + key, Before(value));
    }
  }

  /** What the first colon leaves of a printed text, and its last token. */
  lemma PrintedCut(password: string, tag: Tag, lifetime: string)
    requires ':' !in password && ':' !in tag.session && ':' !in lifetime
    ensures var text := PrintAll(password, tag, lifetime);
      && (NoColon(tag.country, tag.city, tag.state) ==> ':' !in text)
      && (!NoColon(tag.country, tag.city, tag.state) ==>
            LastToken(Before(text)) == LastToken(Before(FirstCut(tag.country, tag.city, tag.state))))
  {
    CutInFields(password, tag, FieldText("session", tag.session) + FieldText("lifetime", lifetime));
    assert PrintAll(password, tag, lifetime)
        == password + FieldText("country", tag.country) + FieldText("state", tag.state) + FieldText("city", tag.city)
           + (FieldText("session", tag.session) + FieldText("lifetime", lifetime));
  }

  lemma CutInFields(base: string, tag: Tag, rest: string)
    requires ':' !in base && ':' !in rest
    ensures var text := base + FieldText("country", tag.country) + FieldText("state", tag.state)
                        + FieldText("city", tag.city) + rest;
      && (NoColon(tag.country, tag.city, tag.state) ==> ':' !in text)
      && (!NoColon(tag.country, tag.city, tag.state) ==>
            LastToken(Before(text)) == LastToken(Before(FirstCut(tag.country, tag.city, tag.state))))
  {
    var state, city := FieldText("state", tag.state), FieldText("city", tag.city);
    var s1 := base + FieldText("country", tag.country);
    var s2 := s1 + state;
    FieldCut(base, "country", tag.country, state + city + rest);
    Regrouped(s1, state, city, rest);
    if ':' !in tag.country {
      FieldCut(s1, "state", tag.state, city + rest);
      if ':' !in tag.state {
        FieldCut(s2, "city", tag.city, rest);
      }
    }
  }

  lemma Regrouped(a: string, b: string, c: string, d: string)
    ensures a + b + c + d == a + (b + c + d) && a + b + c + d == a + b + (c + d)
  {}

  /** The listener panics on the credentials exactly when a value of the tag holds
      a colon and the first such value ends, in front of its colon, in a keyword
      behind a dash or alone; and it scans that tag exactly when no value holds a
      dash or a colon and none is a keyword that is taken for a key. */
  predicate HttpReads(credentials: string, tag: Tag)
  {
    |Split(Trim(credentials), ':')| >= 2 &&
    var tokens := HttpTokens(credentials);
    && (IsKeyword(tokens[|tokens| - 1]) <==>
          !NoColon(tag.country, tag.city, tag.state)
          && IsKeyword(LastToken(Before(FirstCut(tag.country, tag.city, tag.state)))))
    && (ScanTag(tokens) == tag <==>
          DashFree(tag) && NoColon(tag.country, tag.city, tag.state) && KeywordsHarmless(tag, true))
  }

  /** Captain to the HTTP listener, for whatever country, city and state were
      requested. */
  lemma HttpScans(user: string, password: string, poolGroup: string, countryCode: string, isSticky: bool, city: string,
                  state: string, sessionDuration: Option<int>, session: string)
    requires IsIssued(user) && IsIssued(password) && IsSessionText(poolGroup, session)
    ensures HttpReads(Credentials(user, password, ProxyConfig(poolGroup, countryCode, isSticky, city, state, sessionDuration, session)),
                      SentTag(poolGroup, countryCode, isSticky, city, state, sessionDuration, session))
  {
    SessionPlain(poolGroup, isSticky, session);
    ConfigOfSent(poolGroup, countryCode, isSticky, city, state, sessionDuration, session);
    HttpTagScans(user, password, SentTag(poolGroup, countryCode, isSticky, city, state, sessionDuration, session), sessionDuration);
  }

  /** What this listener sees of an ordinary request without colons: the same. */
  lemma HttpSees(user: string, password: string, poolGroup: string, countryCode: string, isSticky: bool, city: string,
                 state: string, sessionDuration: Option<int>, session: string)
    requires IsIssued(user) && IsIssued(password) && IsSessionText(poolGroup, session)
    requires !IsKeyword(countryCode) && !IsKeyword(city) && !IsKeyword(state)
    requires NoDash(countryCode, city, state) && NoColon(countryCode, city, state)
    ensures var c := Credentials(user, password, ProxyConfig(poolGroup, countryCode, isSticky, city, state, sessionDuration, session));
            var remembered := isSticky && (poolGroup == "netnut" || poolGroup == "geonode" || poolGroup == "iproyal");
            var hour := sessionDuration.None? || sessionDuration.value > 0;
            && |Split(Trim(c), ':')| >= 2 && HttpTokens(c)[0] == password && !IsKeyword(HttpTokens(c)[|HttpTokens(c)| - 1])
            && ScanTag(HttpTokens(c)) == Tag(countryCode, state, city, if remembered then session else "", if hour then 60 else 0)
  {
    var tag := SentTag(poolGroup, countryCode, isSticky, city, state, sessionDuration, session);
    SessionPlain(poolGroup, isSticky, session);
    ConfigOfSent(poolGroup, countryCode, isSticky, city, state, sessionDuration, session);
    HttpText(user, password, tag, sessionDuration);
    ListenerSees(password, poolGroup, countryCode, isSticky, city, state, sessionDuration, session);
    HttpScans(user, password, poolGroup, countryCode, isSticky, city, state, sessionDuration, session);
  }

  lemma SessionPlain(poolGroup: string, isSticky: bool, session: string)
    requires IsSessionText(poolGroup, session)
    ensures Clean(SessionOf(poolGroup, isSticky, session)) && ':' !in SessionOf(poolGroup, isSticky, session)
  {
    if SessionOf(poolGroup, isSticky, session) != "" {
      SessionTextClean(poolGroup, session);
      if poolGroup == "netnut" {
        var n :| 10000000 <= n <= 100000000 && session == Itoa(n);
        assert forall i :: 0 <= i < |Digits(n)| ==> IsDigit(Digits(n)[i]);
      }
    }
  }

  lemma HttpTagScans(user: string, password: string, tag: Tag, d: Option<int>)
    requires IsIssued(user) && IsIssued(password) && ':' !in tag.session && tag.lifetime == LifetimeSeen(d)
    ensures HttpReads(Credentials(user, password, PrintAll("", tag, LifetimeText(d))), tag)
  {
    if NoColon(tag.country, tag.city, tag.state) {
      WholeTagScans(user, password, tag, d);
    } else {
      var config := PrintAll("", tag, LifetimeText(d));
      HttpText(user, password, tag, d);
      CutTagScans(password, tag);
      CutReads(Credentials(user, password, config), Split(Before(PrintAll(password, tag, "")), '-'), tag);
    }
  }

  lemma WholeTagScans(user: string, password: string, tag: Tag, d: Option<int>)
    requires IsIssued(user) && IsIssued(password) && ':' !in tag.session && tag.lifetime == LifetimeSeen(d)
    requires NoColon(tag.country, tag.city, tag.state)
    ensures HttpReads(Credentials(user, password, PrintAll("", tag, LifetimeText(d))), tag)
  {
    var config := PrintAll("", tag, LifetimeText(d));
    HttpText(user, password, tag, d);
    IssuedClean(password);
    TagScans(password, tag, d);
    WholeReads(Credentials(user, password, config), password + config, password, tag);
  }

  lemma WholeReads(credentials: string, printed: string, password: string, tag: Tag)
    requires |Split(Trim(credentials), ':')| >= 2 && HttpTokens(credentials) == Split(printed, '-')
    requires NoColon(tag.country, tag.city, tag.state) && SocksReads(printed, password, tag)
    ensures HttpReads(credentials, tag)
  {}

  lemma CutReads(credentials: string, tokens: seq<string>, tag: Tag)
    requires |Split(Trim(credentials), ':')| >= 2 && HttpTokens(credentials) == tokens && tokens != []
    requires !NoColon(tag.country, tag.city, tag.state) && ScanTag(tokens) != tag
    requires tokens[|tokens| - 1] == LastToken(Before(FirstCut(tag.country, tag.city, tag.state)))
    ensures HttpReads(credentials, tag)
  {}

  /** The tokens in front of the colon. */
  lemma CutTagScans(password: string, tag: Tag)
    requires IsIssued(password) && ':' !in tag.session && !NoColon(tag.country, tag.city, tag.state)
    ensures var tokens := Split(Before(PrintAll(password, tag, "")), '-');
      && tokens[|tokens| - 1] == LastToken(Before(FirstCut(tag.country, tag.city, tag.state)))
      && ScanTag(tokens) != tag
  {
    HexColon(password);
    PrintedCut(password, tag, "");
    BeforeIsFirst(PrintAll(password, tag, ""));
    ColonLost(Before(PrintAll(password, tag, "")), tag);
  }

  /** No scan of a text without colons gives a value with one. */
  lemma ColonLost(text: string, tag: Tag)
    requires ':' !in text && !NoColon(tag.country, tag.city, tag.state)
    ensures ScanTag(Split(text, '-')) != tag
  {
    ScannedFree(text, ':');
  }

  /** With no colon the requested duration is the one scanned exactly if it is 0
      or 60; behind a colon it is lost: the tokens are the same for every duration. */
  lemma HttpDuration(user: string, password: string, poolGroup: string, countryCode: string, isSticky: bool, city: string,
                     state: string, duration: int, other: int, session: string)
    requires IsIssued(user) && IsIssued(password) && IsSessionText(poolGroup, session)
    ensures var c1 := Credentials(user, password, ProxyConfig(poolGroup, countryCode, isSticky, city, state, Some(duration), session));
            var c2 := Credentials(user, password, ProxyConfig(poolGroup, countryCode, isSticky, city, state, Some(other), session));
            && |Split(Trim(c1), ':')| >= 2 && |Split(Trim(c2), ':')| >= 2
            && (NoColon(countryCode, city, state) ==>
                  (ScanTag(HttpTokens(c1)).lifetime == duration <==> duration == 0 || duration == 60))
            && (!NoColon(countryCode, city, state) ==> HttpTokens(c1) == HttpTokens(c2))
  {
    var tag := Tag(countryCode, state, city, SessionOf(poolGroup, isSticky, session), 0);
    SessionPlain(poolGroup, isSticky, session);
    HttpText(user, password, tag, Some(duration));
    HttpText(user, password, tag, Some(other));
    DurationHonoured(password, poolGroup, countryCode, isSticky, city, state, duration, session);
  }

  /** The tokens of a printed tag: all of them, or those before the colon, which
      the lifetime has no part in. */
  lemma HttpText(user: string, password: string, tag: Tag, d: Option<int>)
    requires IsIssued(user) && IsIssued(password) && ':' !in tag.session
    ensures var config := PrintAll("", tag, LifetimeText(d));
            && |Split(Trim(Credentials(user, password, config)), ':')| >= 2
            && HttpTokens(Credentials(user, password, config))
            == if NoColon(tag.country, tag.city, tag.state) then Split(password + config, '-')
               else Split(Before(PrintAll(password, tag, "")), '-')
  {
    var text := password + PrintAll("", tag, LifetimeText(d));
    LifetimePlain(d);
    HexColon(password);
    PrefixPrint(password, tag, LifetimeText(d));
    PrintLifetime(password, tag, LifetimeText(d));
    assert text[|text| - 1] == LifetimeText(d)[|LifetimeText(d)| - 1];
    assert Credentials(user, password, PrintAll("", tag, LifetimeText(d))) == user + ":" + text;
    TokensBeforeColon(user, text);
    PrintedCut(password, tag, LifetimeText(d));
    BeforeIsFirst(text);
    ColonKept(password, tag);
    BeforeConcat(PrintAll(password, tag, ""), FieldText("lifetime", LifetimeText(d)));
  }

  lemma ColonKept(password: string, tag: Tag)
    ensures !NoColon(tag.country, tag.city, tag.state) ==> ':' in PrintAll(password, tag, "")
  {
    var s1 := password + FieldText("country", tag.country);
    var s2 := s1 + FieldText("state", tag.state);
    var s3 := s2 + FieldText("city", tag.city);
    assert ':' in tag.country ==> ':' in s1;
    assert ':' in s1 || ':' in tag.state ==> ':' in s2;
    assert ':' in s2 || ':' in tag.city ==> ':' in s3;
  }

  /** A city with a colon is cut there: what is scanned is the part before. */
  lemma ColonCityCut(user: string, password: string, poolGroup: string, countryCode: string, isSticky: bool, a: string,
                     b: string, state: string, d: Option<int>, session: string)
    requires IsIssued(user) && IsIssued(password) && IsSessionText(poolGroup, session)
    requires Clean(a) && a != "" && ':' !in a && ':' !in countryCode && ':' !in state
    ensures var config := ProxyConfig(poolGroup, countryCode, isSticky, a + ":" + b, state, d, session);
            && |Split(Trim(Credentials(user, password, config)), ':')| >= 2
            && ScanTag(HttpTokens(Credentials(user, password, config))).city == a
  {
    var tag := Tag(countryCode, state, a + ":" + b, SessionOf(poolGroup, isSticky, session), 0);
    SessionPlain(poolGroup, isSticky, session);
    HttpText(user, password, tag, d);
    HexColon(password);
    var place := password + FieldText("country", countryCode) + FieldText("state", state);
    PlacePlain(password, countryCode, state);
    assert (a + ":" + b)[|a|] == ':';
    assert PrintAll(password, tag, "") == place + FieldText("city", a + ":" + b) + FieldText("session", tag.session);
    ColonValueCut(place, "city", a, b, FieldText("session", tag.session));
    SplitField(place, "city", a);
    LookPair(Split(place, '-'), "city", a, "city");
  }

  lemma PlacePlain(password: string, countryCode: string, state: string)
    requires ':' !in password && ':' !in countryCode && ':' !in state
    ensures ':' !in password + FieldText("country", countryCode) + FieldText("state", state)
  {
    FieldCut(password, "country", countryCode, "");
    FieldCut(password + FieldText("country", countryCode), "state", state, "");
  }

  lemma ColonValueCut(base: string, key: string, a: string, b: string, rest: string)
    requires ':' !in base && ':' !in key && ':' !in a && a != ""
    ensures Before(base + FieldText(key, a + ":" + b) + rest) == base + FieldText(key, a)
  {
    BeforeColon(a, b);
    FieldPieces(base, key, a + ":" + b, rest);
    CutWithin(base + "-" + key + "-", a + ":" + b, rest);
    FieldPieces(base, key, a, "");
    assert base + FieldText(key, a) + "" == base + FieldText(key, a) && a + "" == a;
  }

  lemma BeforeColon(a: string, b: string)
    requires ':' !in a
    ensures ':' in a + ":" + b && Before(a + ":" + b) == a
  {
    assert (a + ":" + b)[|a|] == ':';
    assert a + ":" + b == a + (":" + b);
    BeforeConcat(a, ":" + b);
    assert a + Before(":" + b) == a;
  }

  // ---- a request -------------------------------------------------------

  const USER := "9f8e7d6c"
  const PASSWORD := "0a1b2c3d"

  lemma SampleIssued()
    ensures IsIssued(USER) && IsIssued(PASSWORD)
  {}

  lemma SampleSession()
    ensures IsSessionText("geonode", "00000000")
  {
    assert forall i :: 0 <= i < 8 ==> IsHex("00000000"[i]);
  }

  /** A keyword in front of a colon, as a city, makes the listener panic. */
  lemma KeywordColonPanics(user: string, password: string, poolGroup: string, countryCode: string, isSticky: bool,
                           key: string, b: string, state: string, d: Option<int>, session: string)
    requires IsIssued(user) && IsIssued(password) && IsSessionText(poolGroup, session)
    requires IsKeyword(key) && ':' !in countryCode && ':' !in state
    ensures var config := ProxyConfig(poolGroup, countryCode, isSticky, key + ":" + b, state, d, session);
            && |Split(Trim(Credentials(user, password, config)), ':')| >= 2
            && var tokens := HttpTokens(Credentials(user, password, config));
            IsKeyword(tokens[|tokens| - 1])
  {
    KeywordPlain(key);
    BeforeColon(key, b);
    SplitFree(key, '-');
    HttpScans(user, password, poolGroup, countryCode, isSticky, key + ":" + b, state, d, session);
  }

  lemma KeywordPlain(key: string)
    requires IsKeyword(key)
    ensures ':' !in key && '-' !in key
  {}

  /** One such request: the city "state:x". */
  lemma StateColonPanics()
    ensures var config := ProxyConfig("geonode", "US", false, "state:x", "", None, "00000000");
            |Split(Trim(Credentials(USER, PASSWORD, config)), ':')| >= 2
            && var tokens := HttpTokens(Credentials(USER, PASSWORD, config));
            IsKeyword(tokens[|tokens| - 1])
  {
    SampleIssued();
    SampleSession();
    assert "state:x" == "state" + ":" + "x";
    KeywordColonPanics(USER, PASSWORD, "geonode", "US", false, "state", "x", "", None, "00000000");
  }
}
