// The worker's reprinting of a tag as upstream credentials, one syntax per
// provider, and what splitting the result at ":" and rescanning it gives back.
module ProviderTag {
  import opened Strings
  import opened Tags
  import opened ProxyString
  import opened Wrappers

  predicate KnownProvider(provider: string) {
    provider == "netnut" || provider == "geonode" || provider == "iproyal"
  }

  /** base, followed by the prefix and the value unless the value is empty. */
  function Opt(base: string, prefix: string, value: string): string
  {
    if value == "" then base else base + prefix + value
  }

  function NetnutUser(username: string, tag: Tag): string
  {
    var placed := if tag.country != "" && (tag.city != "" || tag.state != "")
                  then Opt(Opt(username + "-res_sc-" + tag.country, "_", tag.state), "_", tag.city)
                  else username + "-res-" + tag.country;
    Opt(placed, "-sid-", tag.session)
  }

  function GeonodeUser(username: string, tag: Tag): string
  {
    PrintAll(username, tag, if tag.lifetime > 0 then Itoa(tag.lifetime) else "")
  }

  function IproyalLifetime(lifetime: int): string
  {
    if lifetime <= 0 then "" else if lifetime < 60 then Itoa(lifetime) + "m" else Itoa(lifetime / 60) + "h"
  }

  function IproyalPassword(password: string, tag: Tag): string
  {
    Opt(Opt(Opt(Opt(password, "_country-", tag.country), "_city-", tag.city), "_session-", tag.session),
        "_lifetime-", IproyalLifetime(tag.lifetime))
  }

  function UserPart(provider: string, username: string, tag: Tag): string
  {
    if provider == "netnut" then NetnutUser(username, tag)
    else if provider == "geonode" then GeonodeUser(username, tag)
    else username
  }

  function PasswordPart(provider: string, password: string, tag: Tag): string
  {
    if provider == "iproyal" then IproyalPassword(password, tag) else password
  }

  function Converted(username: string, password: string, tag: Tag, provider: string): string
  {
    if KnownProvider(provider)
    then UserPart(provider, username, tag) + ":" + PasswordPart(provider, password, tag)
    else ""
  }

  /** convertTag. */
  method ConvertTag(username: string, password: string, tag: Tag, provider: string) returns (newstring: string)
    ensures newstring == Converted(username, password, tag, provider)
  {
    newstring := "";
    match provider {
      case "netnut" =>
        newstring := NetnutBranch(username, password, tag);
      case "geonode" =>
        newstring := GeonodeBranch(username, password, tag);
      case "iproyal" =>
        newstring := IproyalBranch(username, password, tag);
      case _ =>
    }
  }

  method NetnutBranch(username: string, password: string, tag: Tag) returns (s: string)
    ensures s == NetnutUser(username, tag) + ":" + password
  {
    s := "" + username;
    assert s == username;
    if tag.country != "" && (tag.city != "" || tag.state != "") {
      s := s + "-res_sc-" + tag.country;
      if tag.state != "" {
        s := s + "_" + tag.state;
      }
      if tag.city != "" {
        s := s + "_" + tag.city;
      }
    } else {
      s := s + "-res-" + tag.country;
    }
    if tag.session != "" {
      s := s + "-sid-" + tag.session;
    }
    s := s + ":" + password;
  }

  method GeonodeBranch(username: string, password: string, tag: Tag) returns (s: string)
    ensures s == GeonodeUser(username, tag) + ":" + password
  {
    s := GeonodePlace("" + username, tag);
    assert "" + username == username;
    ghost var printed := s;
    if tag.session != "" {
      s := s + "-session-" + tag.session;
    }
    FieldPrinted(printed, "session", tag.session, "-session-");
    assert s == printed + FieldText("session", tag.session);
    printed := s;
    ghost var lifetime := if tag.lifetime > 0 then Itoa(tag.lifetime) else "";
    if tag.lifetime > 0 {
      s := s + "-lifetime-" + Itoa(tag.lifetime);
    }
    FieldPrinted(printed, "lifetime", lifetime, "-lifetime-");
    assert s == printed + FieldText("lifetime", lifetime);
    s := s + ":" + password;
  }

  /** The first three fields of the geonode branch. */
  method GeonodePlace(base: string, tag: Tag) returns (s: string)
    ensures s == base + FieldText("country", tag.country) + FieldText("state", tag.state) + FieldText("city", tag.city)
  {
    s := base;
    if tag.country != "" {
      s := s + "-country-" + tag.country;
    }
    FieldPrinted(base, "country", tag.country, "-country-");
    ghost var printed := s;
    if tag.state != "" {
      s := s + "-state-" + tag.state;
    }
    FieldPrinted(printed, "state", tag.state, "-state-");
    printed := s;
    if tag.city != "" {
      s := s + "-city-" + tag.city;
    }
    FieldPrinted(printed, "city", tag.city, "-city-");
  }

  method IproyalBranch(username: string, password: string, tag: Tag) returns (s: string)
    ensures s == username + ":" + IproyalPassword(password, tag)
  {
    s := "" + username + ":" + password;
    ghost var user := username + ":";
    assert s == user + password;
    ghost var p := password;
    if tag.country != "" {
      s := s + "_country-" + tag.country;
    }
    OptAppended(user, p, "_country-", tag.country);
    p := Opt(p, "_country-", tag.country);
    if tag.city != "" {
      s := s + "_city-" + tag.city;
    }
    OptAppended(user, p, "_city-", tag.city);
    p := Opt(p, "_city-", tag.city);
    if tag.session != "" {
      s := s + "_session-" + tag.session;
    }
    OptAppended(user, p, "_session-", tag.session);
    p := Opt(p, "_session-", tag.session);
    if tag.lifetime > 0 {
      if tag.lifetime < 60 {
        s := s + "_lifetime-" + (Itoa(tag.lifetime) + "m");
      } else {
        s := s + "_lifetime-" + (Itoa(tag.lifetime / 60) + "h");
      }
    }
    OptAppended(user, p, "_lifetime-", IproyalLifetime(tag.lifetime));
  }

  lemma OptAppended(front: string, base: string, prefix: string, value: string)
    ensures front + Opt(base, prefix, value) == Opt(front + base, prefix, value)
  {
    assert front + (base + prefix + value) == front + base + prefix + value;
  }

  // ---- one colon -------------------------------------------------------

  /** The fields that the provider's syntax prints. */
  function PrintedFields(provider: string, username: string, password: string, tag: Tag): seq<string>
  {
    var always := [username, password, tag.country, tag.session];
    if provider == "netnut" then (if tag.country != "" then always + [tag.state, tag.city] else always)
    else if provider == "geonode" then always + [tag.state, tag.city]
    else always + [tag.city]
  }

  lemma OptColon(base: string, prefix: string, value: string)
    requires ':' !in prefix
    ensures ':' in Opt(base, prefix, value) <==> ':' in base || ':' in value
  {}

  lemma FieldColon(base: string, key: string, value: string)
    requires ':' !in key
    ensures ':' in base + FieldText(key, value) <==> ':' in base || ':' in value
  {}

  lemma ItoaColon(n: int)
    ensures ':' !in Itoa(n)
  {
    var d := Digits(if n < 0 then -n else n);
    assert forall i :: 0 <= i < |d| ==> IsDigit(d[i]);
  }

  lemma PrintAllColon(base: string, tag: Tag, lifetime: string)
    ensures ':' in PrintAll(base, tag, lifetime)
       <==> ':' in base || ':' in tag.country || ':' in tag.state || ':' in tag.city || ':' in tag.session || ':' in lifetime
  {
    var s1 := base + FieldText("country", tag.country);
    var s2 := s1 + FieldText("state", tag.state);
    var s3 := s2 + FieldText("city", tag.city);
    var s4 := s3 + FieldText("session", tag.session);
    FieldColon(base, "country", tag.country);
    FieldColon(s1, "state", tag.state);
    FieldColon(s2, "city", tag.city);
    FieldColon(s3, "session", tag.session);
    FieldColon(s4, "lifetime", lifetime);
  }

  lemma UserColon(provider: string, username: string, tag: Tag)
    ensures ':' in UserPart(provider, username, tag) <==>
      || ':' in username
      || (provider == "netnut" && (':' in tag.country || ':' in tag.session || (tag.country != "" && (':' in tag.state || ':' in tag.city))))
      || (provider == "geonode" && (':' in tag.country || ':' in tag.session || ':' in tag.state || ':' in tag.city))
  {
    if provider == "netnut" {
      var s0 := username + "-res_sc-" + tag.country;
      var s1 := Opt(s0, "_", tag.state);
      OptColon(s0, "_", tag.state);
      OptColon(s1, "_", tag.city);
      OptColon(Opt(s1, "_", tag.city), "-sid-", tag.session);
      OptColon(username + "-res-" + tag.country, "-sid-", tag.session);
    } else if provider == "geonode" {
      ItoaColon(tag.lifetime);
      PrintAllColon(username, tag, if tag.lifetime > 0 then Itoa(tag.lifetime) else "");
    }
  }

  lemma PasswordColon(provider: string, password: string, tag: Tag)
    ensures ':' in PasswordPart(provider, password, tag) <==>
      || ':' in password
      || (provider == "iproyal" && (':' in tag.country || ':' in tag.session || ':' in tag.city))
  {
    if provider == "iproyal" {
      var p1 := Opt(password, "_country-", tag.country);
      var p2 := Opt(p1, "_city-", tag.city);
      var p3 := Opt(p2, "_session-", tag.session);
      OptColon(password, "_country-", tag.country);
      OptColon(p1, "_city-", tag.city);
      OptColon(p2, "_session-", tag.session);
      OptColon(p3, "_lifetime-", IproyalLifetime(tag.lifetime));
      ItoaColon(tag.lifetime);
      ItoaColon(tag.lifetime / 60);
    }
  }

  /** Splitting the converted credentials at ":" gives exactly the username
      part and the password part if and only if no printed field holds a colon. */
  lemma ConvertedSplits(username: string, password: string, tag: Tag, provider: string)
    requires KnownProvider(provider)
    ensures Split(Converted(username, password, tag, provider), ':')
         == [UserPart(provider, username, tag), PasswordPart(provider, password, tag)]
       <==> forall f :: f in PrintedFields(provider, username, password, tag) ==> ':' !in f
  {
    var u, p := UserPart(provider, username, tag), PasswordPart(provider, password, tag);
    assert Converted(username, password, tag, provider) == u + [':'] + p;
    TwoParts(u, p);
    UserColon(provider, username, tag);
    PasswordColon(provider, password, tag);
    FieldsColon(provider, username, password, tag);
  }

  lemma TwoParts(u: string, p: string)
    ensures Split(u + [':'] + p, ':') == [u, p] <==> ':' !in u && ':' !in p
  {
    SplitConcat(u, ':', p);
    SplitCount(u, ':');
    SplitCount(p, ':');
    if ':' !in u { SplitFree(u, ':'); }
    if ':' !in p { SplitFree(p, ':'); }
  }

  lemma FieldsColon(provider: string, username: string, password: string, tag: Tag)
    requires KnownProvider(provider)
    ensures (forall f :: f in PrintedFields(provider, username, password, tag) ==> ':' !in f) <==>
      && ':' !in username && ':' !in password && ':' !in tag.country && ':' !in tag.session
      && (provider == "netnut" && tag.country != "" ==> ':' !in tag.state && ':' !in tag.city)
      && (provider == "geonode" ==> ':' !in tag.state && ':' !in tag.city)
      && (provider == "iproyal" ==> ':' !in tag.city)
  {
    var fields := PrintedFields(provider, username, password, tag);
    assert fields[0] == username && fields[1] == password && fields[2] == tag.country && fields[3] == tag.session;
    if provider == "geonode" || (provider == "netnut" && tag.country != "") {
      assert fields[4] == tag.state && fields[5] == tag.city;
    } else if provider == "iproyal" {
      assert fields[4] == tag.city;
    }
  }

  /** For an unknown provider the split has one part, so reading its second
      part is the run-time panic. */
  lemma UnknownProviderHasNoPassword(username: string, password: string, tag: Tag, provider: string)
    ensures |Split(Converted(username, password, tag, provider), ':')| >= 2 <==> KnownProvider(provider)
  {
    if KnownProvider(provider) {
      var u, p := UserPart(provider, username, tag), PasswordPart(provider, password, tag);
      assert Converted(username, password, tag, provider) == u + [':'] + p;
      SplitConcat(u, ':', p);
    }
  }

  // ---- rescanning ------------------------------------------------------

  /** The lifetime field of a geonode username. */
  function GeonodeLifetime(tag: Tag): string
  {
    if tag.lifetime > 0 then Itoa(tag.lifetime) else ""
  }

  lemma GeonodeLifetimeReads(tag: Tag)
    requires MIN_INT <= tag.lifetime <= MAX_INT
    ensures Clean(GeonodeLifetime(tag)) && (GeonodeLifetime(tag) != "" <==> tag.lifetime > 0)
    ensures tag.lifetime > 0 ==> Atoi(GeonodeLifetime(tag)) == tag.lifetime
  {
    if tag.lifetime > 0 {
      DigitsClean(tag.lifetime);
      AtoiItoa(tag.lifetime);
    }
  }

  /** Under "lifetime" a rescan finds the printed lifetime, or a key, or nothing. */
  lemma LifetimeFound(last: string, tag: Tag, lifetime: string)
    requires last != "lifetime" && !IsKeyword(lifetime)
    ensures var found := LookAll(Look("", last), tag, lifetime, "lifetime").found;
            if lifetime != "" then found == lifetime else found == "" || IsKeyword(found)
  {}

  lemma KeywordsAreNoNumbers(s: string)
    requires s == "" || IsKeyword(s)
    ensures Atoi(s) == 0
  {
    if s != "" {
      assert "country"[0] == 'c' && "state"[0] == 's' && "city"[0] == 'c' && "session"[0] == 's' && "lifetime"[0] == 'l';
      assert !IsDigit(s[0]);
    }
  }

  /** What rescanning the geonode username of a dash-free tag gives. */
  lemma GeonodeFound(username: string, tag: Tag)
    requires DashFree(tag) && MIN_INT <= tag.lifetime <= MAX_INT
    requires forall t :: t in Split(username, '-') ==> !IsKeyword(t)
    ensures ScanTag(Split(GeonodeUser(username, tag), '-'))
         == Scanned(tag, tag.lifetime > 0).(lifetime := if tag.lifetime > 0 then tag.lifetime else 0)
  {
    var lifetime := GeonodeLifetime(tag);
    GeonodeLifetimeReads(tag);
    SplitAll(username, tag, lifetime);
    GeonodeKey(username, tag, lifetime, "country");
    GeonodeKey(username, tag, lifetime, "state");
    GeonodeKey(username, tag, lifetime, "city");
    GeonodeKey(username, tag, lifetime, "session");
    GeonodeKeyLifetime(username, tag, lifetime);
  }

  lemma BareUser(username: string, key: string)
    requires IsKeyword(key) && forall t :: t in Split(username, '-') ==> !IsKeyword(t)
    ensures LookAt(Split(username, '-'), key).found == "" && LookAt(Split(username, '-'), key).last != key
  {
    var tokens := Split(username, '-');
    assert tokens[|tokens| - 1] in tokens;
    assert forall t :: t in tokens[..|tokens| - 1] ==> t in tokens;
    AfterPrefix(tokens, key);
  }

  lemma GeonodeKey(username: string, tag: Tag, lifetime: string, key: string)
    requires IsKeyword(key) && key != "lifetime" && !IsKeyword(lifetime)
    requires forall t :: t in Split(username, '-') ==> !IsKeyword(t)
    ensures After(AddAll(Split(username, '-'), tag, lifetime), key) == Finds(tag, lifetime != "", key)
  {
    BareUser(username, key);
    LookAllAt(Split(username, '-'), tag, lifetime, key);
    LookAllFinds(LookAt(Split(username, '-'), key).last, tag, lifetime, key);
  }

  lemma GeonodeKeyLifetime(username: string, tag: Tag, lifetime: string)
    requires !IsKeyword(lifetime)
    requires forall t :: t in Split(username, '-') ==> !IsKeyword(t)
    ensures Atoi(After(AddAll(Split(username, '-'), tag, lifetime), "lifetime")) == if lifetime != "" then Atoi(lifetime) else 0
  {
    BareUser(username, "lifetime");
    LookAllAt(Split(username, '-'), tag, lifetime, "lifetime");
    LifetimeFound(LookAt(Split(username, '-'), "lifetime").last, tag, lifetime);
    if lifetime == "" {
      KeywordsAreNoNumbers(After(AddAll(Split(username, '-'), tag, lifetime), "lifetime"));
    }
  }

  /** Rescanning a geonode username gives back the tag that was printed exactly
      when no value holds a dash, none is a keyword that is taken for a key, and
      the lifetime is not negative. */
  lemma GeonodeRescans(username: string, tag: Tag)
    requires MIN_INT <= tag.lifetime <= MAX_INT
    requires forall t :: t in Split(username, '-') ==> !IsKeyword(t)
    ensures ScanTag(Split(GeonodeUser(username, tag), '-')) == tag
       <==> DashFree(tag) && tag.lifetime >= 0 && KeywordsHarmless(tag, tag.lifetime > 0)
  {
    if DashFree(tag) {
      GeonodeFound(username, tag);
      ScannedIsTag(tag, tag.lifetime > 0);
    } else {
      ScannedDashFree(GeonodeUser(username, tag));
    }
  }

  /** Printed for geonode, cut at the colon and at the dashes and scanned, a tag
      gives the wanted one, and the password half is untouched. */
  predicate ComesBack(username: string, password: string, tag: Tag, wanted: Tag)
  {
    var parts := Split(Converted(username, password, tag, "geonode"), ':');
    |parts| == 2 && parts[1] == password && ScanTag(Split(parts[0], '-')) == wanted
  }

  /** A dash-free and colon-free tag comes back as what its geonode fields give. */
  lemma GeonodeJourney(username: string, password: string, tag: Tag, wanted: Tag)
    requires DashFree(tag) && ColonFree(tag) && 0 <= tag.lifetime <= MAX_INT
    requires forall t :: t in Split(username, '-') ==> !IsKeyword(t)
    requires ':' !in username && ':' !in password
    ensures ComesBack(username, password, tag, wanted) <==> Scanned(tag, tag.lifetime > 0) == wanted
  {
    var provider := "geonode";
    GeonodeFields(provider, username, password, tag);
    ConvertedSplits(username, password, tag, provider);
    GeonodeFound(username, tag);
  }

  lemma GeonodeFields(provider: string, username: string, password: string, tag: Tag)
    requires ColonFree(tag) && ':' !in username && ':' !in password
    ensures forall f :: f in PrintedFields(provider, username, password, tag) ==> ':' !in f
  {}

  /** Whatever came back went through both separators. */
  lemma ComesBackPlain(username: string, password: string, tag: Tag, wanted: Tag)
    requires ComesBack(username, password, tag, wanted)
    ensures DashFree(wanted) && ColonFree(wanted)
  {
    var user := Split(Converted(username, password, tag, "geonode"), ':')[0];
    ScannedDashFree(user);
    ScannedFree(user, ':');
  }

  /** The whole journey. A tag printed by the captain, scanned by the SOCKS
      listener, reprinted for geonode, cut at the colon and at the dashes and
      scanned once more is the tag the captain printed, exactly when no requested
      value holds a dash or a colon and the keywords among them do no harm. */
  lemma CaptainToGeonode(password: string, poolGroup: string, countryCode: string, isSticky: bool, city: string,
                         state: string, sessionDuration: Option<int>, session: string,
                         upstreamUser: string, upstreamPassword: string)
    requires IsIssued(password) && IsSessionText(poolGroup, session)
    requires ':' !in upstreamUser && ':' !in upstreamPassword
    requires forall t :: t in Split(upstreamUser, '-') ==> !IsKeyword(t)
    ensures var sent := SentTag(poolGroup, countryCode, isSticky, city, state, sessionDuration, session);
            var config := ProxyConfig(poolGroup, countryCode, isSticky, city, state, sessionDuration, session);
            ComesBack(upstreamUser, upstreamPassword, ScanTag(Split(password + config, '-')), sent)
            <==> NoDash(countryCode, city, state) && NoColon(countryCode, city, state) && SurvivesTwice(sent)
  {
    var sent := SentTag(poolGroup, countryCode, isSticky, city, state, sessionDuration, session);
    SentSession(poolGroup, isSticky, session);
    TagJourney(password, sent, sessionDuration, upstreamUser, upstreamPassword);
    ConfigOfSent(poolGroup, countryCode, isSticky, city, state, sessionDuration, session);
  }

  lemma TagJourney(password: string, sent: Tag, d: Option<int>, upstreamUser: string, upstreamPassword: string)
    requires IsIssued(password) && !IsKeyword(sent.session) && sent.lifetime == LifetimeSeen(d)
    requires ':' !in upstreamUser && ':' !in upstreamPassword
    requires forall t :: t in Split(upstreamUser, '-') ==> !IsKeyword(t)
    ensures ComesBack(upstreamUser, upstreamPassword, ScanTag(Split(password + PrintAll("", sent, LifetimeText(d)), '-')), sent)
       <==> DashFree(sent) && ColonFree(sent) && SurvivesTwice(sent)
  {
    var scanned := ScanTag(Split(password + PrintAll("", sent, LifetimeText(d)), '-'));
    if ComesBack(upstreamUser, upstreamPassword, scanned, sent) {
      ComesBackPlain(upstreamUser, upstreamPassword, scanned, sent);
    }
    if DashFree(sent) && ColonFree(sent) {
      IssuedClean(password);
      TagFound(password, sent, d);
      FoundFree(sent, '-');
      FoundFree(sent, ':');
      GeonodeJourney(upstreamUser, upstreamPassword, scanned, sent);
      TwiceScanned(sent);
    }
  }

  lemma FoundFree(tag: Tag, c: char)
    requires c == '-' || c == ':'
    requires c !in tag.country && c !in tag.state && c !in tag.city && c !in tag.session
    ensures var t := Scanned(tag, true); c !in t.country && c !in t.state && c !in t.city && c !in t.session
  {
    KeysFree(tag, c, "country");
    KeysFree(tag, c, "state");
    KeysFree(tag, c, "city");
    KeysFree(tag, c, "session");
  }

  lemma KeysFree(tag: Tag, c: char, key: string)
    requires c == '-' || c == ':'
    requires c !in tag.country && c !in tag.state && c !in tag.city && c !in tag.session
    ensures c !in Finds(tag, true, key)
  {
    assert c !in "session" && c !in "lifetime" && c !in "city" && c !in "state";
  }

  predicate ColonFree(tag: Tag) {
    ':' !in tag.country && ':' !in tag.state && ':' !in tag.city && ':' !in tag.session
  }

  lemma SentSession(poolGroup: string, isSticky: bool, session: string)
    requires IsSessionText(poolGroup, session)
    ensures Clean(SessionOf(poolGroup, isSticky, session)) && ':' !in SessionOf(poolGroup, isSticky, session)
  {
    if SessionOf(poolGroup, isSticky, session) != "" {
      SessionTextClean(poolGroup, session);
      SessionTextColon(poolGroup, session);
    }
  }

  lemma SessionTextColon(poolGroup: string, session: string)
    requires IsSessionText(poolGroup, session)
    requires poolGroup in {"netnut", "geonode", "iproyal"}
    ensures ':' !in session
  {
    if poolGroup == "netnut" {
      var n :| 10000000 <= n <= 100000000 && session == Itoa(n);
      ItoaColon(n);
    }
  }
}
