// The captain's printer of the tag suffix, and the round trip from the printed
// proxy password back to the tag the worker scans.
module ProxyString {
  import opened Strings
  import opened Tags
  import opened Wrappers

  predicate IsHex(c: char) { '0' <= c <= '9' || 'a' <= c <= 'f' }

  /** The random session text: a number between 10000000 and 100000000 for
      netnut, the first eight characters of a UUID for the other two groups. */
  ghost predicate IsSessionText(poolGroup: string, session: string)
  {
    && (poolGroup == "netnut" ==> exists n :: 10000000 <= n <= 100000000 && session == Itoa(n))
    && (poolGroup == "geonode" || poolGroup == "iproyal" ==>
          |session| == 8 && forall i :: 0 <= i < 8 ==> IsHex(session[i]))
  }

  function SessionOf(poolGroup: string, isSticky: bool, session: string): string
  {
    if isSticky && poolGroup in {"netnut", "geonode", "iproyal"} then session else ""
  }

  function LifetimeText(sessionDuration: Option<int>): string
  {
    if sessionDuration.Some? && sessionDuration.value <= 0 then Itoa(sessionDuration.value) else "60"
  }

  function ProxyConfig(poolGroup: string, countryCode: string, isSticky: bool, city: string, state: string,
                       sessionDuration: Option<int>, session: string): string
  {
    PrintAll("", Tag(countryCode, state, city, SessionOf(poolGroup, isSticky, session), 0),
             LifetimeText(sessionDuration))
  }

  /** The first three fields. */
  method PlaceSuffix(countryCode: string, state: string, city: string) returns (config: string)
    ensures config == "" + FieldText("country", countryCode) + FieldText("state", state) + FieldText("city", city)
  {
    config := "";
    if countryCode != "" {
      config := config + ("-country-" + countryCode);
    }
    FieldPrinted("", "country", countryCode, "-country-");
    ghost var placed := config;
    if state != "" {
      config := config + ("-state-" + state);
    }
    FieldPrinted(placed, "state", state, "-state-");
    placed := config;
    if city != "" {
      config := config + ("-city-" + city);
    }
    FieldPrinted(placed, "city", city, "-city-");
  }

  /** The switch over the pool groups. */
  method AppendSession(placed: string, poolGroup: string, isSticky: bool, session: string) returns (config: string)
    requires IsSessionText(poolGroup, session)
    ensures config == placed + FieldText("session", SessionOf(poolGroup, isSticky, session))
  {
    if SessionOf(poolGroup, isSticky, session) != "" {
      SessionTextClean(poolGroup, session);
    }
    config := placed;
    match poolGroup {
      case "netnut" =>
        if isSticky {
          config := config + ("-session-" + session);
        }
      case "geonode" =>
        if isSticky {
          config := config + ("-session-" + session);
        }
      case "iproyal" =>
        if isSticky {
          config := config + ("-session-" + session);
        }
      case _ =>
    }
    FieldPrinted(placed, "session", SessionOf(poolGroup, isSticky, session), "-session-");
  }

  /** GenerateproxyString; the random session text is a parameter. */
  method GenerateProxyString(poolGroup: string, countryCode: string, isSticky: bool, city: string, state: string,
                             sessionDuration: Option<int>, session: string) returns (config: string)
    requires IsSessionText(poolGroup, session)
    ensures config == ProxyConfig(poolGroup, countryCode, isSticky, city, state, sessionDuration, session)
  {
    config := PlaceSuffix(countryCode, state, city);
    config := AppendSession(config, poolGroup, isSticky, session);
    ghost var placed := config;
    if sessionDuration.Some? && sessionDuration.value <= 0 {
      config := config + ("-lifetime-" + Itoa(sessionDuration.value));
    } else {
      config := config + ("-lifetime-" + "60");
    }
    FieldPrinted(placed, "lifetime", LifetimeText(sessionDuration), "-lifetime-");
    assert config == placed + FieldText("lifetime", LifetimeText(sessionDuration));
  }

  lemma SessionTextClean(poolGroup: string, session: string)
    requires IsSessionText(poolGroup, session)
    requires poolGroup in {"netnut", "geonode", "iproyal"}
    ensures session != "" && Clean(session)
  {
    if poolGroup == "netnut" {
      var n :| 10000000 <= n <= 100000000 && session == Itoa(n);
      assert AllDigits(session);
    }
    assert forall i :: 0 <= i < |session| ==> IsHex(session[i]);
    assert !IsHex("country"[1]) && !IsHex("state"[0]) && !IsHex("city"[1]) && !IsHex("session"[0]) && !IsHex("lifetime"[0]);
  }

  // ---- the worker's view -----------------------------------------------

  /** The lifetime the worker scans: a positive requested duration is always
      replaced by 60, a negative one is torn apart at its own dash and reads 0. */
  function LifetimeSeen(sessionDuration: Option<int>): int
  {
    if sessionDuration.Some? && sessionDuration.value <= 0 then 0 else 60
  }

  function SentTag(poolGroup: string, countryCode: string, isSticky: bool, city: string, state: string,
                   sessionDuration: Option<int>, session: string): Tag
  {
    Tag(countryCode, state, city, SessionOf(poolGroup, isSticky, session), LifetimeSeen(sessionDuration))
  }

  lemma DigitsClean(n: nat)
    ensures Clean(Digits(n)) && Clean(Itoa(n))
  {
    assert forall i :: 0 <= i < |Digits(n)| ==> IsDigit(Digits(n)[i]);
    assert !IsDigit("country"[0]) && !IsDigit("state"[0]) && !IsDigit("city"[0]);
    assert !IsDigit("session"[0]) && !IsDigit("lifetime"[0]);
  }

  lemma PrefixPrint(base: string, tag: Tag, lifetime: string)
    ensures base + PrintAll("", tag, lifetime) == PrintAll(base, tag, lifetime)
  {
    Regroup(base, FieldText("country", tag.country), FieldText("state", tag.state), FieldText("city", tag.city),
            FieldText("session", tag.session), FieldText("lifetime", lifetime));
  }

  lemma Regroup(a: string, b: string, c: string, d: string, e: string, f: string)
    ensures a + ("" + b + c + d + e + f) == a + b + c + d + e + f
  {}

  /** The tokens of the lifetime field, which always comes last. */
  function Tail(d: Option<int>): seq<string>
  {
    if d.Some? && d.value < 0 then ["lifetime", ""] + [Digits(-d.value)] else ["lifetime", LifetimeText(d)]
  }

  /** Whatever the other fields hold, the password splits into their tokens and
      the tail. */
  lemma TokensOfPrinted(password: string, tag: Tag, d: Option<int>)
    ensures Split(password + PrintAll("", tag, LifetimeText(d)), '-')
         == Split(PrintAll(password, tag, ""), '-') + Tail(d)
  {
    PrefixPrint(password, tag, LifetimeText(d));
    PrintLifetime(password, tag, LifetimeText(d));
    TailSplits(PrintAll(password, tag, ""), d);
  }

  lemma TailSplits(front: string, d: Option<int>)
    ensures Split(front + FieldText("lifetime", LifetimeText(d)), '-') == Split(front, '-') + Tail(d)
  {
    if d.Some? && d.value < 0 {
      NegativeTail(front, d);
    } else {
      SixtyOrZero(d);
      SplitField(front, "lifetime", LifetimeText(d));
    }
  }

  lemma NegativeTail(front: string, d: Option<int>)
    requires d.Some? && d.value < 0
    ensures Split(front + FieldText("lifetime", LifetimeText(d)), '-') == Split(front, '-') + Tail(d)
  {
    DigitsClean(-d.value);
    SplitNegative(front, "lifetime", Digits(-d.value));
    assert Split(front, '-') + ["lifetime", ""] + [Digits(-d.value)] == Split(front, '-') + Tail(d);
  }

  lemma {:induction false} FirstToken(password: string, rest: string)
    requires '-' !in password && (rest == "" || rest[0] == '-')
    ensures Split(password + rest, '-')[0] == password
  {
    if rest == "" {
      SplitFree(password, '-');
      assert password + rest == password;
    } else {
      assert password + rest == password + ['-'] + rest[1..];
      SplitConcat(password, '-', rest[1..]);
      SplitFree(password, '-');
    }
  }

  lemma PrintedStart(tag: Tag)
    ensures PrintAll("", tag, "") == "" || PrintAll("", tag, "")[0] == '-'
  {
    var s1 := "" + FieldText("country", tag.country);
    var s2 := s1 + FieldText("state", tag.state);
    var s3 := s2 + FieldText("city", tag.city);
    assert s1 == "" || s1[0] == '-';
    assert s2 == "" || s2[0] == '-';
    assert s3 == "" || s3[0] == '-';
  }

  /** The first token is the password, the last one is no keyword, and the token
      behind the last "lifetime" is the one the captain printed there, torn off
      at its sign if it has one. */
  lemma TokenEnds(password: string, tag: Tag, d: Option<int>)
    ensures var tokens := Split(PrintAll(password, tag, ""), '-') + Tail(d);
      && ('-' !in password ==> tokens[0] == password)
      && !IsKeyword(tokens[|tokens| - 1])
      && Atoi(After(tokens, "lifetime")) == LifetimeSeen(d)
  {
    var front := Split(PrintAll(password, tag, ""), '-');
    TailEnds(front, d);
    if '-' !in password {
      PrefixPrint(password, tag, "");
      PrintedStart(tag);
      FirstToken(password, PrintAll("", tag, ""));
    }
  }

  lemma TailEnds(front: seq<string>, d: Option<int>)
    requires front != []
    ensures var tokens := front + Tail(d);
      !IsKeyword(tokens[|tokens| - 1]) && Atoi(After(tokens, "lifetime")) == LifetimeSeen(d)
  {
    if d.Some? && d.value < 0 {
      TornTail(front, Digits(-d.value));
      DigitsClean(-d.value);
      assert front + Tail(d) == front + ["lifetime", ""] + [Digits(-d.value)];
    } else {
      SixtyOrZero(d);
      PlainLifetime(d);
      LookPair(front, "lifetime", LifetimeText(d), "lifetime");
    }
  }

  lemma TornTail(front: seq<string>, digits: string)
    requires front != []
    ensures After(front + ["lifetime", ""] + [digits], "lifetime") == ""
  {
    LookPair(front, "lifetime", "", "lifetime");
    AfterExtra(front + ["lifetime", ""], digits, "lifetime");
  }

  lemma PlainLifetime(d: Option<int>)
    requires d.None? || d.value >= 0
    ensures Atoi(LifetimeText(d)) == LifetimeSeen(d)
  {
    AtoiItoa(0);
    AtoiItoa(60);
    assert Itoa(60) == Digits(6) + "0";
    assert Itoa(60) == "60";
  }

  /** A lifetime printed without a sign is "60" or "0". */
  lemma SixtyOrZero(d: Option<int>)
    requires d.None? || d.value >= 0
    ensures LifetimeText(d) == (if d == Some(0) then "0" else "60")
    ensures LifetimeText(d)[0] != '-' && Clean(LifetimeText(d)) && AllDigits(LifetimeText(d))
  {
    var text := LifetimeText(d);
    assert text == "60" || text == "0";
    assert text[0] == '6' || text[0] == '0';
    assert !IsDigit("country"[0]) && !IsDigit("state"[0]) && !IsDigit("city"[0]);
    assert !IsDigit("session"[0]) && !IsDigit("lifetime"[0]);
  }

  lemma PrintLifetime(base: string, tag: Tag, lifetime: string)
    ensures PrintAll(base, tag, lifetime) == PrintAll(base, tag, "") + FieldText("lifetime", lifetime)
  {}

  lemma NegativeText(front: string, key: string, digits: string)
    ensures front + FieldText(key, "-" + digits) == (front + ['-'] + key) + ['-'] + "" + ['-'] + digits
  {
    assert "-" + key + "-" + ("-" + digits) == ['-'] + key + ['-'] + ['-'] + digits;
  }

  lemma SplitNegative(front: string, key: string, digits: string)
    requires '-' !in key && '-' !in digits
    ensures Split(front + FieldText(key, "-" + digits), '-') == Split(front, '-') + [key, ""] + [digits]
  {
    var s1 := front + ['-'] + key;
    var s2 := s1 + ['-'] + "";
    NegativeText(front, key, digits);
    SplitConcat(s2, '-', digits);
    SplitConcat(s1, '-', "");
    SplitConcat(front, '-', key);
    SplitFree(digits, '-');
    SplitFree(key, '-');
  }

  /** The lifetime field hides nothing: every other key reads as if "60" had
      been printed. */
  lemma TailNeutral(front: seq<string>, d: Option<int>, key: string)
    requires front != [] && IsKeyword(key) && key != "lifetime"
    ensures After(front + Tail(d), key) == After(front + ["lifetime", "60"], key)
  {
    LookPair(front, "lifetime", "60", key);
    if d.Some? && d.value < 0 {
      LookPair(front, "lifetime", "", key);
      AfterExtra(front + ["lifetime", ""], Digits(-d.value), key);
      assert front + Tail(d) == front + ["lifetime", ""] + [Digits(-d.value)];
    } else {
      LookPair(front, "lifetime", LifetimeText(d), key);
    }
  }

  /** What the worker finds under each other key of a printed password whose
      values hold no dash. */
  lemma FoundInPrinted(password: string, tag: Tag, d: Option<int>, key: string)
    requires Clean(password) && DashFree(tag) && IsKeyword(key) && key != "lifetime"
    ensures After(Split(PrintAll(password, tag, ""), '-') + Tail(d), key) == Finds(tag, true, key)
  {
    SplitFree(password, '-');
    SplitAll(password, tag, "");
    TailNeutral(AddAll([password], tag, ""), d, key);
    FoundBeforeSixty(password, tag, key);
  }

  lemma FoundBeforeSixty(password: string, tag: Tag, key: string)
    requires Clean(password) && IsKeyword(key) && key != "lifetime"
    ensures After(AddAll([password], tag, "") + ["lifetime", "60"], key) == Finds(tag, true, key)
  {
    SixtyOrZero(None);
    LookAllAt([password], tag, LifetimeText(None), key);
    LookAllFinds(password, tag, LifetimeText(None), key);
  }

  /** Dash-free values scan to what their printed fields give. */
  lemma TagFound(password: string, tag: Tag, d: Option<int>)
    requires Clean(password) && DashFree(tag)
    ensures ScanTag(Split(password + PrintAll("", tag, LifetimeText(d)), '-'))
         == Scanned(tag, true).(lifetime := LifetimeSeen(d))
  {
    TokensOfPrinted(password, tag, d);
    TokenEnds(password, tag, d);
    var tokens := Split(PrintAll(password, tag, ""), '-') + Tail(d);
    FoundInPrinted(password, tag, d, "country");
    FoundInPrinted(password, tag, d, "state");
    FoundInPrinted(password, tag, d, "city");
    FoundInPrinted(password, tag, d, "session");
    EachFound(tokens, tag, LifetimeSeen(d));
  }

  lemma EachFound(tokens: seq<string>, tag: Tag, lifetime: int)
    requires After(tokens, "country") == Finds(tag, true, "country") && After(tokens, "state") == Finds(tag, true, "state")
    requires After(tokens, "city") == Finds(tag, true, "city") && After(tokens, "session") == Finds(tag, true, "session")
    requires Atoi(After(tokens, "lifetime")) == lifetime
    ensures ScanTag(tokens) == Scanned(tag, true).(lifetime := lifetime)
  {}

  /** The SOCKS listener reads the password back, and the tag exactly when no value
      holds a dash and none is a keyword that is taken for a key; the HTTP loop does
      not run off the end of the tokens. */
  predicate SocksReads(printed: string, password: string, tag: Tag)
  {
    var tokens := Split(printed, '-');
    && tokens[0] == password && !IsKeyword(tokens[|tokens| - 1])
    && (ScanTag(tokens) == tag <==> DashFree(tag) && KeywordsHarmless(tag, true))
  }

  /** The printed password of a tag, whose lifetime is the one that is scanned. */
  lemma TagScans(password: string, tag: Tag, d: Option<int>)
    requires Clean(password) && tag.lifetime == LifetimeSeen(d)
    ensures SocksReads(password + PrintAll("", tag, LifetimeText(d)), password, tag)
  {
    TokensOfPrinted(password, tag, d);
    TokenEnds(password, tag, d);
    if DashFree(tag) {
      TagFound(password, tag, d);
      ScannedIsTag(tag, true);
    } else {
      ScannedDashFree(password + PrintAll("", tag, LifetimeText(d)));
    }
  }

  lemma ConfigOfSent(poolGroup: string, countryCode: string, isSticky: bool, city: string, state: string,
                     sessionDuration: Option<int>, session: string)
    ensures ProxyConfig(poolGroup, countryCode, isSticky, city, state, sessionDuration, session)
         == PrintAll("", SentTag(poolGroup, countryCode, isSticky, city, state, sessionDuration, session), LifetimeText(sessionDuration))
  {}

  /** The captain issues passwords of eight hexadecimal characters. */
  predicate IsIssued(password: string) { |password| == 8 && forall i :: 0 <= i < 8 ==> IsHex(password[i]) }

  lemma IssuedClean(password: string)
    requires IsIssued(password)
    ensures Clean(password)
  {
    assert !IsHex("country"[1]) && !IsHex("state"[0]) && !IsHex("city"[1]);
    assert !IsHex("session"[0]) && !IsHex("lifetime"[0]);
  }

  predicate NoDash(countryCode: string, city: string, state: string) {
    '-' !in countryCode && '-' !in city && '-' !in state
  }

  predicate NoColon(countryCode: string, city: string, state: string) {
    ':' !in countryCode && ':' !in city && ':' !in state
  }

  /** Captain to the SOCKS listener, for whatever country, city and state were
      requested. */
  lemma PrintedPasswordScans(password: string, poolGroup: string, countryCode: string, isSticky: bool, city: string,
                             state: string, sessionDuration: Option<int>, session: string)
    requires Clean(password)
    ensures SocksReads(password + ProxyConfig(poolGroup, countryCode, isSticky, city, state, sessionDuration, session), password,
                       SentTag(poolGroup, countryCode, isSticky, city, state, sessionDuration, session))
  {
    ConfigOfSent(poolGroup, countryCode, isSticky, city, state, sessionDuration, session);
    TagScans(password, SentTag(poolGroup, countryCode, isSticky, city, state, sessionDuration, session), sessionDuration);
  }

  /** For an issued password and values that are no keywords it comes down to
      the dashes. */
  lemma IssuedPasswordScans(password: string, poolGroup: string, countryCode: string, isSticky: bool, city: string,
                            state: string, sessionDuration: Option<int>, session: string)
    requires IsIssued(password) && IsSessionText(poolGroup, session)
    requires !IsKeyword(countryCode) && !IsKeyword(city) && !IsKeyword(state)
    ensures var tokens := Split(password + ProxyConfig(poolGroup, countryCode, isSticky, city, state, sessionDuration, session), '-');
            ScanTag(tokens) == SentTag(poolGroup, countryCode, isSticky, city, state, sessionDuration, session)
            <==> NoDash(countryCode, city, state)
  {
    IssuedClean(password);
    PrintedPasswordScans(password, poolGroup, countryCode, isSticky, city, state, sessionDuration, session);
    if SessionOf(poolGroup, isSticky, session) != "" {
      SessionTextClean(poolGroup, session);
    }
    OrdinaryValuesHarmless(SentTag(poolGroup, countryCode, isSticky, city, state, sessionDuration, session), true);
  }

  /** What the SOCKS listener sees of an ordinary request: the place as requested,
      the random text exactly if the request is sticky and its group is one of the
      three, and an hour unless no time or less was asked for. */
  lemma ListenerSees(password: string, poolGroup: string, countryCode: string, isSticky: bool, city: string,
                     state: string, sessionDuration: Option<int>, session: string)
    requires IsIssued(password) && IsSessionText(poolGroup, session)
    requires !IsKeyword(countryCode) && !IsKeyword(city) && !IsKeyword(state) && NoDash(countryCode, city, state)
    ensures var tokens := Split(password + ProxyConfig(poolGroup, countryCode, isSticky, city, state, sessionDuration, session), '-');
            var remembered := isSticky && (poolGroup == "netnut" || poolGroup == "geonode" || poolGroup == "iproyal");
            var hour := sessionDuration.None? || sessionDuration.value > 0;
            && tokens[0] == password
            && ScanTag(tokens) == Tag(countryCode, state, city, if remembered then session else "", if hour then 60 else 0)
  {
    IssuedClean(password);
    PrintedPasswordScans(password, poolGroup, countryCode, isSticky, city, state, sessionDuration, session);
    IssuedPasswordScans(password, poolGroup, countryCode, isSticky, city, state, sessionDuration, session);
  }

  /** The text itself. */
  lemma ConfigText(poolGroup: string, countryCode: string, isSticky: bool, city: string, state: string,
                   sessionDuration: Option<int>, session: string)
    requires countryCode != "" && state != "" && city != "" && session != ""
    ensures ProxyConfig(poolGroup, countryCode, isSticky, city, state, sessionDuration, session)
         == "-country-" + countryCode + "-state-" + state + "-city-" + city
            + (if isSticky && (poolGroup == "netnut" || poolGroup == "geonode" || poolGroup == "iproyal")
               then "-session-" + session else "")
            + "-lifetime-" + (if sessionDuration.Some? && sessionDuration.value <= 0 then Itoa(sessionDuration.value) else "60")
  {
    PlaceWhole(countryCode, state, city);
    EndWhole("-country-" + countryCode + "-state-" + state + "-city-" + city, SessionOf(poolGroup, isSticky, session),
             LifetimeText(sessionDuration));
  }

  lemma PlaceWhole(countryCode: string, state: string, city: string)
    requires countryCode != "" && state != "" && city != ""
    ensures "" + FieldText("country", countryCode) + FieldText("state", state) + FieldText("city", city)
         == "-country-" + countryCode + "-state-" + state + "-city-" + city
  {
    var one := "-country-" + countryCode;
    var two := one + "-state-" + state;
    FieldWhole("", "country", countryCode, "-country-");
    assert "" + "-country-" + countryCode == one;
    FieldWhole(one, "state", state, "-state-");
    FieldWhole(two, "city", city, "-city-");
  }

  lemma EndWhole(placed: string, session: string, lifetime: string)
    requires lifetime != ""
    ensures placed + FieldText("session", session) + FieldText("lifetime", lifetime)
         == placed + (if session != "" then "-session-" + session else "") + "-lifetime-" + lifetime
  {
    var front := placed + FieldText("session", session);
    FieldPrinted(placed, "session", session, "-session-");
    if session == "" {
      assert placed + "" == placed;
    }
    FieldWhole(front, "lifetime", lifetime, "-lifetime-");
  }

  lemma FieldWhole(base: string, key: string, value: string, literal: string)
    requires value != "" && literal == "-" + key + "-"
    ensures base + FieldText(key, value) == base + literal + value
  {
    FieldPrinted(base, key, value, literal);
    assert base + (literal + value) == base + literal + value;
  }

  /** A city with a dash is cut at it, whatever else was requested. */
  lemma DashedCityCut(password: string, poolGroup: string, countryCode: string, isSticky: bool, a: string, b: string,
                      state: string, sessionDuration: Option<int>, session: string)
    requires Clean(a) && a != "" && Clean(b) && IsSessionText(poolGroup, session)
    ensures ScanTag(Split(password + ProxyConfig(poolGroup, countryCode, isSticky, a + "-" + b, state, sessionDuration, session), '-')).city == a
  {
    if SessionOf(poolGroup, isSticky, session) != "" {
      SessionTextClean(poolGroup, session);
    }
    var tag := Tag(countryCode, state, a + "-" + b, SessionOf(poolGroup, isSticky, session), 0);
    TokensOfPrinted(password, tag, sessionDuration);
    var place := password + FieldText("country", countryCode) + FieldText("state", state);
    SplitDashed(place, a, b);
    assert PrintAll(password, tag, "") == place + FieldText("city", a + "-" + b) + FieldText("session", tag.session);
    SplitField(place + FieldText("city", a + "-" + b), "session", tag.session);
    CityBehind(Split(place, '-'), a, b, tag.session, sessionDuration);
  }

  lemma CityBehind(front: seq<string>, a: string, b: string, session: string, d: Option<int>)
    requires front != [] && Clean(a) && Clean(b) && session != "city"
    ensures After(AddField(front + ["city", a] + [b], "session", session) + Tail(d), "city") == a
  {
    var cut := front + ["city", a] + [b];
    LookPair(front, "city", a, "city");
    AfterExtra(front + ["city", a], b, "city");
    LookField(cut, "session", session, "city");
    var all := AddField(cut, "session", session);
    TailNeutral(all, d, "city");
    LookPair(all, "lifetime", "60", "city");
  }

  lemma SplitDashed(place: string, a: string, b: string)
    requires '-' !in a && '-' !in b
    ensures Split(place + FieldText("city", a + "-" + b), '-') == Split(place, '-') + ["city", a] + [b]
  {
    assert "-" + "city" + "-" + (a + "-" + b) == ['-'] + "city" + ['-'] + a + ['-'] + b;
    var s1 := place + ['-'] + "city";
    var s2 := s1 + ['-'] + a;
    assert place + FieldText("city", a + "-" + b) == s2 + ['-'] + b;
    SplitConcat(s2, '-', b);
    SplitConcat(s1, '-', a);
    SplitConcat(place, '-', "city");
    SplitFree("city", '-');
    SplitFree(a, '-');
    SplitFree(b, '-');
  }

  /** One such request. */
  lemma NewYorkIsCut()
    ensures ScanTag(Split("0a1b2c3d" + ProxyConfig("geonode", "US", false, "new-york", "", None, "00000000"), '-')).city == "new"
  {
    var a, b := "new", "york";
    assert "new-york" == a + "-" + b;
    assert a[0] == 'n' && b[0] == 'y';
    DashedCityCut("0a1b2c3d", "geonode", "US", false, a, b, "", None, "00000000");
  }

  /** A requested session duration reaches the worker exactly when it is 0 or 60,
      whatever the password and the other values. */
  lemma DurationHonoured(password: string, poolGroup: string, countryCode: string, isSticky: bool, city: string,
                         state: string, duration: int, session: string)
    ensures ScanTag(Split(password + ProxyConfig(poolGroup, countryCode, isSticky, city, state, Some(duration), session), '-')).lifetime == duration
       <==> duration == 0 || duration == 60
  {
    var tag := Tag(countryCode, state, city, SessionOf(poolGroup, isSticky, session), 0);
    TokensOfPrinted(password, tag, Some(duration));
    TokenEnds(password, tag, Some(duration));
  }
}
