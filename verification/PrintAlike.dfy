// What the netnut and iproyal syntaxes lose: exactly when two tags are printed as
// the same credentials. The tags are any without dashes, as every scanned one is.
// Then, what the two providers are sent. (The geonode syntax is scanned back in
// ProviderTag.)
module PrintAlike {
  import opened Strings
  import opened Tags
  import opened ProviderTag

  // ---- netnut ----------------------------------------------------------

  /** Country, state and city, joined by underscores without the empty ones. */
  function PlaceText(tag: Tag): string
  {
    Opt(Opt(tag.country, "_", tag.state), "_", tag.city)
  }

  predicate Placed(tag: Tag) { tag.country != "" && (tag.state != "" || tag.city != "") }

  /** The kind of the username and the place in it. */
  function Kind(tag: Tag): string
  {
    if Placed(tag) then "res_sc" else "res"
  }

  function Place(tag: Tag): string
  {
    if Placed(tag) then PlaceText(tag) else tag.country
  }

  /** What follows the username. */
  function NetnutTail(tag: Tag): string
  {
    Opt("-" + Kind(tag) + "-" + Place(tag), "-sid-", tag.session)
  }

  lemma NetnutIsTail(username: string, tag: Tag)
    ensures NetnutUser(username, tag) == username + NetnutTail(tag)
  {
    if Placed(tag) {
      OptFront(username + "-res_sc-", tag.country, "_", tag.state);
      OptFront(username + "-res_sc-", Opt(tag.country, "_", tag.state), "_", tag.city);
      HeadSid(username, "-res_sc-", PlaceText(tag), tag.session);
      assert "-" + "res_sc" + "-" == "-res_sc-";
    } else {
      HeadSid(username, "-res-", tag.country, tag.session);
      assert "-" + "res" + "-" == "-res-";
    }
  }

  lemma OptFront(front: string, base: string, prefix: string, value: string)
    ensures Opt(front + base, prefix, value) == front + Opt(base, prefix, value)
  {
    assert front + (base + prefix + value) == front + base + prefix + value;
  }

  lemma HeadSid(username: string, literal: string, text: string, session: string)
    ensures Opt(username + literal + text, "-sid-", session) == username + Opt(literal + text, "-sid-", session)
  {
    assert username + literal + text == username + (literal + text);
    OptFront(username, literal + text, "-sid-", session);
  }

  lemma HeadSplits(kind: string, text: string)
    requires '-' !in kind && '-' !in text
    ensures Split("-" + kind + "-" + text, '-') == ["", kind, text]
  {
    assert "-" + kind + "-" + text == ("" + ['-'] + kind) + ['-'] + text;
    SplitConcat("" + ['-'] + kind, '-', text);
    SplitConcat("", '-', kind);
    SplitFree(kind, '-');
    SplitFree(text, '-');
  }

  lemma SidSplits(head: string, session: string)
    requires '-' !in session
    ensures Split(Opt(head, "-sid-", session), '-') == Split(head, '-') + (if session != "" then ["sid", session] else [])
  {
    if session != "" {
      assert Opt(head, "-sid-", session) == (head + ['-'] + "sid") + ['-'] + session;
      SplitConcat(head + ['-'] + "sid", '-', session);
      SplitConcat(head, '-', "sid");
      SplitFree("sid", '-');
      SplitFree(session, '-');
    }
  }

  lemma NetnutSplits(tag: Tag)
    requires DashFree(tag)
    ensures Split(NetnutTail(tag), '-')
         == ["", Kind(tag), Place(tag)] + (if tag.session != "" then ["sid", tag.session] else [])
  {
    HeadSplits(Kind(tag), Place(tag));
    SidSplits("-" + Kind(tag) + "-" + Place(tag), tag.session);
  }

  predicate NetnutAlike(a: Tag, b: Tag) {
    Placed(a) == Placed(b) && Place(a) == Place(b) && a.session == b.session
  }

  lemma TailInjective(front: string, x: string, y: string)
    ensures front + x == front + y <==> x == y
  {
    if front + x == front + y {
      assert (front + x)[|front|..] == x && (front + y)[|front|..] == y;
    }
  }

  /** Two tags without dashes print the same netnut username exactly if they agree
      in the session, in whether there is a place besides the country, and in the
      joined text of the three, or the country alone. Which part of that text is
      the country, the state or the city is lost, places without a country are
      dropped, and the lifetime never shows. */
  lemma NetnutPrintsAlike(username: string, a: Tag, b: Tag)
    requires DashFree(a) && DashFree(b)
    ensures NetnutUser(username, a) == NetnutUser(username, b) <==> NetnutAlike(a, b)
  {
    NetnutIsTail(username, a);
    NetnutIsTail(username, b);
    TailInjective(username, NetnutTail(a), NetnutTail(b));
    if NetnutTail(a) == NetnutTail(b) {
      NetnutSplits(a);
      NetnutSplits(b);
      var x, y := Split(NetnutTail(a), '-'), Split(NetnutTail(b), '-');
      assert |x| == |y| && x[1] == y[1] && x[2] == y[2];
      if a.session != "" {
        assert x[4] == y[4];
      }
      assert |"res_sc"| != |"res"|;
    }
  }

  // ---- netnut places without underscores -------------------------------

  predicate Whole(tag: Tag) { '_' !in tag.country && '_' !in tag.state && '_' !in tag.city }

  /** State and city, without the empty ones. */
  function Places(tag: Tag): seq<string>
  {
    (if tag.state != "" then [tag.state] else []) + (if tag.city != "" then [tag.city] else [])
  }

  lemma SplitOpt(base: string, value: string)
    requires '_' !in value
    ensures Split(Opt(base, "_", value), '_') == Split(base, '_') + (if value != "" then [value] else [])
  {
    if value != "" {
      assert Opt(base, "_", value) == base + ['_'] + value;
      SplitConcat(base, '_', value);
      SplitFree(value, '_');
    }
  }

  lemma PlaceSplits(tag: Tag)
    requires Whole(tag)
    ensures Split(PlaceText(tag), '_') == [tag.country] + Places(tag)
  {
    SplitFree(tag.country, '_');
    SplitOpt(tag.country, tag.state);
    SplitOpt(Opt(tag.country, "_", tag.state), tag.city);
  }

  /** If no place holds an underscore either, the usernames are the same exactly if
      country and session agree and, unless there is no country, so do the nonempty
      places in their order: only a state alone prints like a city alone. */
  lemma WholePlacesAlike(a: Tag, b: Tag)
    requires Whole(a) && Whole(b)
    ensures NetnutAlike(a, b) <==>
      a.country == b.country && a.session == b.session && (a.country == "" || Places(a) == Places(b))
  {
    PlaceSplits(a);
    PlaceSplits(b);
    JoinSplit(PlaceText(a), '_');
    JoinSplit(PlaceText(b), '_');
    var x, y := [a.country] + Places(a), [b.country] + Places(b);
    assert x[0] == a.country && x[1..] == Places(a) && y[0] == b.country && y[1..] == Places(b);
  }

  /** A city with an underscore prints like a state and a city. */
  lemma NewYorkPrintsAlike(username: string, country: string, session: string, lifetime: int)
    requires country != ""
    ensures NetnutUser(username, Tag(country, "", "new_york", session, lifetime))
         == NetnutUser(username, Tag(country, "new", "york", session, lifetime))
  {
    var a, b := Tag(country, "", "new_york", session, lifetime), Tag(country, "new", "york", session, lifetime);
    NetnutIsTail(username, a);
    NetnutIsTail(username, b);
    assert "new_york" == "new" + "_" + "york";
    assert PlaceText(a) == country + "_" + "new_york" == country + "_" + "new" + "_" + "york" == PlaceText(b);
  }

  // ---- iproyal ---------------------------------------------------------

  /** The fields in order, the empty ones omitted. */
  function Fields(keys: seq<string>, values: seq<string>): string
    requires |keys| == |values|
  {
    if keys == [] then "" else Field(keys[0], values[0]) + Fields(keys[1..], values[1..])
  }

  function Field(key: string, value: string): string
  {
    if value == "" then "" else "_" + key + "-" + value
  }

  predicate Plain(s: string) { '-' !in s && '_' !in s }

  predicate PlainKeys(keys: seq<string>)
  {
    (forall i :: 0 <= i < |keys| ==> Plain(keys[i])) && (forall i, j :: 0 <= i < j < |keys| ==> keys[i] != keys[j])
  }

  predicate DashFreeValues(values: seq<string>)
  {
    forall i :: 0 <= i < |values| ==> '-' !in values[i]
  }

  /** A nonempty text of fields starts with the key of one of them. */
  lemma {:induction false} StartsWithKey(keys: seq<string>, values: seq<string>) returns (i: nat, rest: string)
    requires |keys| == |values| && Fields(keys, values) != ""
    ensures i < |keys| && Fields(keys, values) == "_" + keys[i] + "-" + rest
  {
    if values[0] != "" {
      i, rest := 0, values[0] + Fields(keys[1..], values[1..]);
      Regroup("_" + keys[0] + "-", values[0], Fields(keys[1..], values[1..]));
    } else {
      i, rest := StartsWithKey(keys[1..], values[1..]);
      assert Fields(keys, values) == "" + Fields(keys[1..], values[1..]) == Fields(keys[1..], values[1..]);
      i := i + 1;
    }
  }

  /** The first c of the one text is not behind the first c of the other. */
  lemma FirstNotBehind(a: string, x: string, b: string, y: string, c: char)
    requires c !in b && a + [c] + x == b + [c] + y
    ensures |b| <= |a|
  {
    assert (a + [c] + x)[|a|] == c;
    assert forall i :: 0 <= i < |b| ==> (b + [c] + y)[i] == b[i];
  }

  /** Nor is the last c. */
  lemma LastNotBehind(a: string, x: string, b: string, y: string, c: char)
    requires c !in y && a + [c] + x == b + [c] + y
    ensures |a| <= |b|
  {
    assert (a + [c] + x)[|a|] == c;
    assert forall i :: |b| < i < |b| + 1 + |y| ==> (b + [c] + y)[i] == y[i - |b| - 1];
  }

  lemma Halves(a: string, x: string, b: string, y: string, c: char)
    requires |a| == |b| && a + [c] + x == b + [c] + y
    ensures a == b && x == y
  {
    assert (a + [c] + x)[..|a|] == a && (b + [c] + y)[..|b|] == b;
    assert (a + [c] + x)[|a| + 1..] == x && (b + [c] + y)[|b| + 1..] == y;
  }

  /** A value ends at the last underscore before the next dash. */
  lemma ValueEnds(v: string, k: string, r: string, w: string, l: string, q: string)
    requires '-' !in v && '-' !in w && Plain(k) && Plain(l) && v + "_" + k + "-" + r == w + "_" + l + "-" + q
    ensures v == w && k == l && r == q
  {
    FirstNotBehind(v + "_" + k, r, w + "_" + l, q, '-');
    FirstNotBehind(w + "_" + l, q, v + "_" + k, r, '-');
    Halves(v + "_" + k, r, w + "_" + l, q, '-');
    LastNotBehind(v, k, w, l, '_');
    LastNotBehind(w, l, v, k, '_');
    Halves(v, k, w, l, '_');
  }

  /** No text or one that starts with a key. */
  datatype Tail = End | Keyed(key: string, rest: string)

  function TailText(t: Tail): string
  {
    match t
    case End => ""
    case Keyed(key, rest) => "_" + key + "-" + rest
  }

  predicate PlainTail(t: Tail) { t.Keyed? ==> Plain(t.key) }

  lemma ValueThenTail(v: string, t: Tail, w: string, u: Tail)
    requires '-' !in v && '-' !in w && PlainTail(t) && PlainTail(u) && v + TailText(t) == w + TailText(u)
    ensures v == w && t == u
  {
    match (t, u) {
      case (End, End) =>
        assert v + "" == v && w + "" == w;
      case (Keyed(k, r), Keyed(l, q)) =>
        TailJoined(v, k, r);
        TailJoined(w, l, q);
        ValueEnds(v, k, r, w, l, q);
      case (Keyed(k, r), End) =>
        HasDash(v, k, r, w + "");
      case (End, Keyed(l, q)) =>
        HasDash(w, l, q, v + "");
    }
  }

  lemma TailJoined(v: string, k: string, r: string)
    ensures v + TailText(Keyed(k, r)) == v + "_" + k + "-" + r
  {}

  lemma HasDash(v: string, k: string, r: string, w: string)
    requires '-' !in w
    ensures v + ("_" + k + "-" + r) != w
  {
    assert (v + ("_" + k + "-" + r))[|v| + 1 + |k|] == '-';
  }

  lemma TailOf(keys: seq<string>, values: seq<string>) returns (t: Tail)
    requires |keys| == |values| && PlainKeys(keys)
    ensures Fields(keys, values) == TailText(t) && PlainTail(t) && (t.Keyed? ==> t.key in keys)
  {
    if Fields(keys, values) == "" {
      t := End;
    } else {
      var i, rest := StartsWithKey(keys, values);
      t := Keyed(keys[i], rest);
    }
  }

  lemma FieldTail(key: string, v: string, t: Tail, w: string, u: Tail)
    requires Plain(key) && '-' !in v && '-' !in w && PlainTail(t) && PlainTail(u)
    requires (t.Keyed? ==> t.key != key) && (u.Keyed? ==> u.key != key)
    requires Field(key, v) + TailText(t) == Field(key, w) + TailText(u)
    ensures v == w && TailText(t) == TailText(u)
  {
    var x := if v == "" then t else Keyed(key, v + TailText(t));
    var y := if w == "" then u else Keyed(key, w + TailText(u));
    FieldIsTail(key, v, t);
    FieldIsTail(key, w, u);
    ValueThenTail("", x, "", y);
    if v != "" && w != "" {
      ValueThenTail(v, t, w, u);
    }
  }

  lemma FieldIsTail(key: string, v: string, t: Tail)
    ensures Field(key, v) + TailText(t) == "" + TailText(if v == "" then t else Keyed(key, v + TailText(t)))
  {
    var x := TailText(t);
    if v == "" {
      assert "" + x == x;
    } else {
      var p := "_" + key + "-";
      Regroup(p, v, x);
      assert "" + (p + (v + x)) == p + (v + x);
    }
  }

  lemma Regroup(a: string, b: string, c: string)
    ensures a + (b + c) == a + b + c
  {}

  /** Fields of values without dashes can be told apart. */
  lemma {:induction false} FieldsInjective(keys: seq<string>, values: seq<string>, others: seq<string>)
    requires |keys| == |values| == |others| && PlainKeys(keys) && DashFreeValues(values) && DashFreeValues(others)
    requires Fields(keys, values) == Fields(keys, others)
    ensures values == others
  {
    if keys != [] {
      var t := TailOf(keys[1..], values[1..]);
      var u := TailOf(keys[1..], others[1..]);
      FieldTail(keys[0], values[0], t, others[0], u);
      FieldsInjective(keys[1..], values[1..], others[1..]);
      assert values == [values[0]] + values[1..] && others == [others[0]] + others[1..];
    }
  }

  const KEYS := ["country", "city", "session", "lifetime"]

  function IproyalValues(tag: Tag): seq<string>
  {
    [tag.country, tag.city, tag.session, IproyalLifetime(tag.lifetime)]
  }

  lemma OptIsField(base: string, key: string, value: string, literal: string)
    requires literal == "_" + key + "-"
    ensures Opt(base, literal, value) == base + Field(key, value)
  {}

  lemma FieldsCons(key: string, keys: seq<string>, value: string, values: seq<string>)
    requires |keys| == |values|
    ensures Fields([key] + keys, [value] + values) == Field(key, value) + Fields(keys, values)
  {
    assert ([key] + keys)[1..] == keys && ([value] + values)[1..] == values;
  }

  lemma FieldsOfFour(a: string, b: string, c: string, d: string)
    ensures Fields(KEYS, [a, b, c, d])
         == Field("country", a) + (Field("city", b) + (Field("session", c) + (Field("lifetime", d) + "")))
  {
    FieldsCons("lifetime", [], d, []);
    FieldsCons("session", ["lifetime"], c, [d]);
    FieldsCons("city", ["session", "lifetime"], b, [c, d]);
    FieldsCons("country", ["city", "session", "lifetime"], a, [b, c, d]);
    assert ["lifetime"] == ["lifetime"] + [] && [d] == [d] + [];
    assert ["session", "lifetime"] == ["session"] + ["lifetime"] && [c, d] == [c] + [d];
    assert ["city", "session", "lifetime"] == ["city"] + ["session", "lifetime"] && [b, c, d] == [b] + [c, d];
    assert KEYS == ["country"] + ["city", "session", "lifetime"] && [a, b, c, d] == [a] + [b, c, d];
  }

  lemma IproyalIsFields(password: string, tag: Tag)
    ensures IproyalPassword(password, tag) == password + Fields(KEYS, IproyalValues(tag))
  {
    var l := IproyalLifetime(tag.lifetime);
    var p1 := Opt(password, "_country-", tag.country);
    var p2 := Opt(p1, "_city-", tag.city);
    var p3 := Opt(p2, "_session-", tag.session);
    OptIsField(password, "country", tag.country, "_country-");
    OptIsField(p1, "city", tag.city, "_city-");
    OptIsField(p2, "session", tag.session, "_session-");
    OptIsField(p3, "lifetime", l, "_lifetime-");
    FieldsOfFour(tag.country, tag.city, tag.session, l);
    Associate(password, Field("country", tag.country), Field("city", tag.city), Field("session", tag.session), Field("lifetime", l));
  }

  lemma Associate(a: string, b: string, c: string, d: string, e: string)
    ensures a + b + c + d + e == a + (b + (c + (d + (e + ""))))
  {}

  lemma LifetimeDashFree(lifetime: int)
    ensures '-' !in IproyalLifetime(lifetime)
  {
    if lifetime > 0 {
      var d := Digits(if lifetime < 60 then lifetime else lifetime / 60);
      assert forall i :: 0 <= i < |d| ==> IsDigit(d[i]);
    }
  }

  predicate IproyalAlike(a: Tag, b: Tag) {
    a.country == b.country && a.city == b.city && a.session == b.session && SameLifetime(a.lifetime, b.lifetime)
  }

  predicate SameLifetime(x: int, y: int) {
    if x <= 0 then y <= 0 else if x < 60 then x == y else y >= 60 && x / 60 == y / 60
  }

  lemma {:induction false} LifetimesAlike(x: int, y: int)
    requires x <= MAX_INT && y <= MAX_INT
    ensures IproyalLifetime(x) == IproyalLifetime(y) <==> SameLifetime(x, y)
  {
    if x > 0 && y > 0 {
      var m, n := if x < 60 then x else x / 60, if y < 60 then y else y / 60;
      var s, t := IproyalLifetime(x), IproyalLifetime(y);
      assert s[..|s| - 1] == Itoa(m) && t[..|t| - 1] == Itoa(n);
      assert s[|s| - 1] == (if x < 60 then 'm' else 'h') && t[|t| - 1] == (if y < 60 then 'm' else 'h');
      AtoiItoa(m);
      AtoiItoa(n);
    }
  }

  lemma KeysPlain()
    ensures PlainKeys(KEYS)
  {
    assert |"country"| == 7 && |"city"| == 4 && |"session"| == 7 && |"lifetime"| == 8;
    assert "country"[0] == 'c' && "session"[0] == 's';
  }

  /** Two tags without dashes print the same iproyal password exactly if country,
      city and session agree and so do the lifetimes, in whole hours from an hour
      on; the state never shows. */
  lemma IproyalPrintsAlike(password: string, a: Tag, b: Tag)
    requires DashFree(a) && DashFree(b) && a.lifetime <= MAX_INT && b.lifetime <= MAX_INT
    ensures IproyalPassword(password, a) == IproyalPassword(password, b) <==> IproyalAlike(a, b)
  {
    LifetimesAlike(a.lifetime, b.lifetime);
    LifetimeDashFree(a.lifetime);
    LifetimeDashFree(b.lifetime);
    IproyalIsFields(password, a);
    IproyalIsFields(password, b);
    var x, y := IproyalValues(a), IproyalValues(b);
    TailInjective(password, Fields(KEYS, x), Fields(KEYS, y));
    if Fields(KEYS, x) == Fields(KEYS, y) {
      KeysPlain();
      FieldsInjective(KEYS, x, y);
      assert x[0] == y[0] && x[1] == y[1] && x[2] == y[2] && x[3] == y[3];
    }
  }

  // ---- the tags a listener scans ---------------------------------------

  /** Both hold of whatever two listeners have scanned, without a condition. */
  lemma ScannedPrintAlike(username: string, password: string, s: string, t: string)
    ensures var a, b := ScanTag(Split(s, '-')), ScanTag(Split(t, '-'));
            && (NetnutUser(username, a) == NetnutUser(username, b) <==> NetnutAlike(a, b))
            && (IproyalPassword(password, a) == IproyalPassword(password, b) <==> IproyalAlike(a, b))
  {
    ScannedDashFree(s);
    ScannedDashFree(t);
    var a, b := ScanTag(Split(s, '-')), ScanTag(Split(t, '-'));
    LifetimeFits(s);
    LifetimeFits(t);
    NetnutPrintsAlike(username, a, b);
    IproyalPrintsAlike(password, a, b);
  }

  lemma LifetimeFits(s: string)
    ensures ScanTag(Split(s, '-')).lifetime <= MAX_INT
  {}

  // ---- what the providers are sent -------------------------------------

  predicate NoColons(provider: string, username: string, password: string, tag: Tag)
  {
    forall f :: f in PrintedFields(provider, username, password, tag) ==> ':' !in f
  }

  /** Netnut gets the password as it is, and a username whose tokens are the name,
      the kind, the place, and the session behind its key. */
  lemma NetnutIsSent(username: string, password: string, tag: Tag)
    requires NoColons("netnut", username, password, tag) && DashFree(tag)
    ensures var parts := Split(Converted(username, password, tag, "netnut"), ':');
            var placed := tag.country != "" && (tag.state != "" || tag.city != "");
            var state := if placed && tag.state != "" then "_" + tag.state else "";
            var city := if placed && tag.city != "" then "_" + tag.city else "";
            && |parts| == 2 && parts[1] == password
            && Split(parts[0], '-')
            == Split(username, '-') + [if placed then "res_sc" else "res", tag.country + state + city]
               + (if tag.session != "" then ["sid", tag.session] else [])
  {
    ConvertedSplits(username, password, tag, "netnut");
    NetnutIsTail(username, tag);
    var rest := Opt(Kind(tag) + "-" + Place(tag), "-sid-", tag.session);
    TailIsDashed(tag);
    assert username + NetnutTail(tag) == username + ['-'] + rest;
    SplitConcat(username, '-', rest);
    RestSplits(tag);
    PlaceIs(tag);
    Grouped(Split(username, '-'), [Kind(tag), Place(tag)], if tag.session != "" then ["sid", tag.session] else []);
  }

  lemma Grouped(a: seq<string>, b: seq<string>, c: seq<string>)
    ensures a + (b + c) == a + b + c
  {}

  lemma PlaceIs(tag: Tag)
    ensures var placed := tag.country != "" && (tag.state != "" || tag.city != "");
            Place(tag) == tag.country + (if placed && tag.state != "" then "_" + tag.state else "")
                          + (if placed && tag.city != "" then "_" + tag.city else "")
  {
    Regroup(tag.country, "_", tag.state);
    assert tag.country + "" == tag.country;
    assert Place(tag) + "" == Place(tag);
    if Placed(tag) && tag.city != "" {
      Regroup(Opt(tag.country, "_", tag.state), "_", tag.city);
    }
  }

  lemma TailIsDashed(tag: Tag)
    ensures NetnutTail(tag) == "-" + Opt(Kind(tag) + "-" + Place(tag), "-sid-", tag.session)
  {
    Regroup("-", Kind(tag) + "-", Place(tag));
    OptFront("-", Kind(tag) + "-" + Place(tag), "-sid-", tag.session);
    assert "-" + Kind(tag) + "-" == "-" + (Kind(tag) + "-");
  }

  lemma RestSplits(tag: Tag)
    requires DashFree(tag)
    ensures Split(Opt(Kind(tag) + "-" + Place(tag), "-sid-", tag.session), '-')
         == [Kind(tag), Place(tag)] + (if tag.session != "" then ["sid", tag.session] else [])
  {
    assert Kind(tag) + "-" + Place(tag) == Kind(tag) + ['-'] + Place(tag);
    SplitConcat(Kind(tag), '-', Place(tag));
    SplitFree(Kind(tag), '-');
    SplitFree(Place(tag), '-');
    SidSplits(Kind(tag) + "-" + Place(tag), tag.session);
  }

  /** Iproyal gets the username as it is, and a password behind which stand the
      fields, minutes below an hour and hours from there on; without underscores in
      the values it splits into them. */
  lemma IproyalIsSent(username: string, password: string, tag: Tag)
    requires NoColons("iproyal", username, password, tag)
    requires '_' !in tag.country && '_' !in tag.city && '_' !in tag.session
    ensures var parts := Split(Converted(username, password, tag, "iproyal"), ':');
            && |parts| == 2 && parts[0] == username
            && Split(parts[1], '_')
            == Split(password, '_')
               + (if tag.country != "" then ["country-" + tag.country] else [])
               + (if tag.city != "" then ["city-" + tag.city] else [])
               + (if tag.session != "" then ["session-" + tag.session] else [])
               + (if tag.lifetime <= 0 then []
                  else if tag.lifetime < 60 then ["lifetime-" + Itoa(tag.lifetime) + "m"]
                  else ["lifetime-" + Itoa(tag.lifetime / 60) + "h"])
  {
    ConvertedSplits(username, password, tag, "iproyal");
    IproyalSplits(password, tag);
    LifetimeField(tag.lifetime);
  }

  lemma IproyalSplits(password: string, tag: Tag)
    requires '_' !in tag.country && '_' !in tag.city && '_' !in tag.session
    ensures Split(IproyalPassword(password, tag), '_')
         == Split(password, '_') + Part("country-", tag.country) + Part("city-", tag.city) + Part("session-", tag.session)
            + Part("lifetime-", IproyalLifetime(tag.lifetime))
  {
    var p1 := Opt(password, "_country-", tag.country);
    var p2 := Opt(p1, "_city-", tag.city);
    OptSplits(password, "country-", tag.country, "_country-");
    OptSplits(p1, "city-", tag.city, "_city-");
    LastSplits(p2, tag.session, tag.lifetime);
  }

  lemma LastSplits(base: string, session: string, lifetime: int)
    requires '_' !in session
    ensures Split(Opt(Opt(base, "_session-", session), "_lifetime-", IproyalLifetime(lifetime)), '_')
         == Split(base, '_') + Part("session-", session) + Part("lifetime-", IproyalLifetime(lifetime))
  {
    LifetimeWhole(lifetime);
    OptSplits(base, "session-", session, "_session-");
    OptSplits(Opt(base, "_session-", session), "lifetime-", IproyalLifetime(lifetime), "_lifetime-");
  }

  function Part(key: string, value: string): seq<string>
  {
    if value == "" then [] else [key + value]
  }

  lemma LifetimeField(lifetime: int)
    ensures Part("lifetime-", IproyalLifetime(lifetime))
         == if lifetime <= 0 then []
            else if lifetime < 60 then ["lifetime-" + Itoa(lifetime) + "m"]
            else ["lifetime-" + Itoa(lifetime / 60) + "h"]
  {
    if lifetime > 0 {
      Regroup("lifetime-", Itoa(if lifetime < 60 then lifetime else lifetime / 60), if lifetime < 60 then "m" else "h");
    }
  }

  lemma LifetimeWhole(lifetime: int)
    ensures '_' !in IproyalLifetime(lifetime)
  {
    if lifetime > 0 {
      var d := Digits(if lifetime < 60 then lifetime else lifetime / 60);
      assert forall i :: 0 <= i < |d| ==> IsDigit(d[i]);
    }
  }

  lemma OptSplits(base: string, key: string, value: string, literal: string)
    requires '_' !in key && '_' !in value && literal == "_" + key
    ensures Split(Opt(base, literal, value), '_') == Split(base, '_') + Part(key, value)
  {
    if value != "" {
      assert Opt(base, literal, value) == base + ['_'] + (key + value);
      SplitConcat(base, '_', key + value);
      SplitFree(key + value, '_');
    }
  }
}
