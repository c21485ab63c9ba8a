// The routing tag carried inside a proxy password: printed by the captain as
// "-country-..-session-..", scanned by the worker's SOCKS and HTTP listeners,
// reprinted per upstream provider.
module Tags {
  import opened Strings

  datatype Tag = Tag(country: string, state: string, city: string, session: string, lifetime: int)

  const NO_TAG := Tag("", "", "", "", 0)

  predicate IsKeyword(s: string) {
    s == "country" || s == "state" || s == "city" || s == "session" || s == "lifetime"
  }

  // ---- scanning --------------------------------------------------------

  /** The token that follows the last occurrence of key having a successor, or "". */
  function After(tokens: seq<string>, key: string): string
  {
    if |tokens| < 2 then ""
    else if tokens[|tokens| - 2] == key then tokens[|tokens| - 1]
    else After(tokens[..|tokens| - 1], key)
  }

  function ScanTag(tokens: seq<string>): Tag
  {
    Tag(After(tokens, "country"), After(tokens, "state"), After(tokens, "city"),
        After(tokens, "session"), Atoi(After(tokens, "lifetime")))
  }

  /** The tokens whose successors have been looked at after i rounds of a scan. */
  function Seen(tokens: seq<string>, i: nat): seq<string>
  {
    if i + 1 <= |tokens| then tokens[..i + 1] else tokens
  }

  lemma SeenStep(tokens: seq<string>, i: nat, key: string)
    requires i < |tokens|
    ensures After(Seen(tokens, i + 1), key)
         == if i + 1 < |tokens| && tokens[i] == key then tokens[i + 1] else After(Seen(tokens, i), key)
  {
    if i + 1 < |tokens| {
      var s := Seen(tokens, i + 1);
      assert s[..|s| - 1] == Seen(tokens, i);
    } else {
      assert Seen(tokens, i + 1) == Seen(tokens, i);
    }
  }

  /** The SOCKS listener's loop, every successor guarded. */
  method ScanSocks(tokens: seq<string>) returns (tag: Tag)
    ensures tag == ScanTag(tokens)
  {
    tag := NO_TAG;
    for i := 0 to |tokens|
      invariant tag == ScanTag(Seen(tokens, i))
    {
      SeenStep(tokens, i, "country");
      SeenStep(tokens, i, "state");
      SeenStep(tokens, i, "city");
      SeenStep(tokens, i, "session");
      SeenStep(tokens, i, "lifetime");
      var v := tokens[i];
      if v == "country" && i + 1 < |tokens| {
        tag := tag.(country := tokens[i + 1]);
      }
      if v == "state" && i + 1 < |tokens| {
        tag := tag.(state := tokens[i + 1]);
      }
      if v == "city" && i + 1 < |tokens| {
        tag := tag.(city := tokens[i + 1]);
      }
      if v == "session" && i + 1 < |tokens| {
        tag := tag.(session := tokens[i + 1]);
      }
      if v == "lifetime" && i + 1 < |tokens| {
        tag := tag.(lifetime := Atoi(tokens[i + 1]));
      }
    }
    assert Seen(tokens, |tokens|) == tokens;
  }

  datatype HttpScan = Tagged(tag: Tag) | IndexPanic

  /** The HTTP listener's loop reads the successor unguarded; reading past the
      end is the run-time panic the connection handler recovers from. It agrees
      with the SOCKS loop exactly when the last token is not a keyword. */
  method ScanHttp(tokens: seq<string>) returns (r: HttpScan)
    ensures r == Tagged(ScanTag(tokens)) <==> (tokens == [] || !IsKeyword(tokens[|tokens| - 1]))
    ensures r == IndexPanic <==> (tokens != [] && IsKeyword(tokens[|tokens| - 1]))
  {
    var tag := NO_TAG;
    for i := 0 to |tokens|
      invariant tag == ScanTag(Seen(tokens, i))
      invariant i == |tokens| > 0 ==> !IsKeyword(tokens[i - 1])
    {
      SeenStep(tokens, i, "country");
      SeenStep(tokens, i, "state");
      SeenStep(tokens, i, "city");
      SeenStep(tokens, i, "session");
      SeenStep(tokens, i, "lifetime");
      var v := tokens[i];
      if IsKeyword(v) && i + 1 >= |tokens| {
        return IndexPanic;
      }
      if v == "country" {
        tag := tag.(country := tokens[i + 1]);
      }
      if v == "state" {
        tag := tag.(state := tokens[i + 1]);
      }
      if v == "city" {
        tag := tag.(city := tokens[i + 1]);
      }
      if v == "session" {
        tag := tag.(session := tokens[i + 1]);
      }
      if v == "lifetime" {
        tag := tag.(lifetime := Atoi(tokens[i + 1]));
      }
    }
    assert Seen(tokens, |tokens|) == tokens;
    r := Tagged(tag);
  }

  // ---- printed fields --------------------------------------------------

  /** "-key-value", or nothing for an empty value. */
  function FieldText(key: string, value: string): string
  {
    if value == "" then "" else "-" + key + "-" + value
  }

  /** The text of a field behind what was printed before it. */
  lemma FieldPrinted(base: string, key: string, value: string, literal: string)
    requires literal == "-" + key + "-"
    ensures value == "" ==> base + FieldText(key, value) == base
    ensures value != "" ==> base + FieldText(key, value) == base + literal + value == base + (literal + value)
  {
    if value == "" {
      assert base + "" == base;
    } else {
      assert base + literal + value == base + (literal + value);
    }
  }

  function AddField(tokens: seq<string>, key: string, value: string): seq<string>
  {
    if value == "" then tokens else tokens + [key, value]
  }

  predicate Clean(s: string) { '-' !in s && !IsKeyword(s) }

  lemma SplitField(base: string, key: string, value: string)
    requires '-' !in key && '-' !in value
    ensures Split(base + FieldText(key, value), '-') == AddField(Split(base, '-'), key, value)
  {
    if value == "" {
      assert base + "" == base;
    } else {
      assert base + FieldText(key, value) == (base + ['-'] + key) + ['-'] + value;
      SplitConcat(base + ['-'] + key, '-', value);
      SplitConcat(base, '-', key);
      SplitFree(key, '-');
      SplitFree(value, '-');
    }
  }

  /** What a scan for one key has found, and the token it would read last. */
  datatype Look = Look(found: string, last: string)

  function LookAt(tokens: seq<string>, sought: string): Look
    requires tokens != []
  {
    Look(After(tokens, sought), tokens[|tokens| - 1])
  }

  function Next(l: Look, key: string, value: string, sought: string): Look
  {
    if value == "" then l
    else Look(if key == sought then value else if l.last == sought then key else l.found, value)
  }

  /** What one more key and value do to what a scan finds. */
  lemma LookPair(tokens: seq<string>, key: string, value: string, sought: string)
    requires tokens != []
    ensures LookAt(tokens + [key, value], sought)
         == Look(if key == sought then value
                 else if tokens[|tokens| - 1] == sought then key
                 else After(tokens, sought), value)
  {
    var all := tokens + [key, value];
    assert all[..|all| - 1] == tokens + [key];
    assert (tokens + [key])[..|tokens|] == tokens;
    assert After(tokens + [key], sought)
        == if tokens[|tokens| - 1] == sought then key else After(tokens, sought);
  }

  lemma LookField(tokens: seq<string>, key: string, value: string, sought: string)
    requires tokens != []
    ensures LookAt(AddField(tokens, key, value), sought) == Next(LookAt(tokens, sought), key, value, sought)
  {
    LookPair(tokens, key, value, sought);
  }

  /** A trailing token that follows a non-keyword changes nothing. */
  lemma AfterExtra(tokens: seq<string>, extra: string, sought: string)
    requires tokens != [] && tokens[|tokens| - 1] != sought
    ensures After(tokens + [extra], sought) == After(tokens, sought)
  {
    assert (tokens + [extra])[..|tokens|] == tokens;
  }

  lemma {:induction false} AfterPrefix(tokens: seq<string>, sought: string)
    requires tokens != [] && sought !in tokens[..|tokens| - 1]
    ensures After(tokens, sought) == ""
  {
    if |tokens| >= 2 {
      var front := tokens[..|tokens| - 1];
      assert tokens[|tokens| - 2] in front;
      assert forall t :: t in front[..|front| - 1] ==> t in front;
      AfterPrefix(front, sought);
    }
  }

  predicate CleanTag(tag: Tag) {
    Clean(tag.country) && Clean(tag.state) && Clean(tag.city) && Clean(tag.session)
  }

  predicate DashFree(tag: Tag) {
    '-' !in tag.country && '-' !in tag.state && '-' !in tag.city && '-' !in tag.session
  }

  /** base followed by the place fields, the session and the lifetime. */
  function PrintAll(base: string, tag: Tag, lifetime: string): string
  {
    base + FieldText("country", tag.country) + FieldText("state", tag.state) + FieldText("city", tag.city)
    + FieldText("session", tag.session) + FieldText("lifetime", lifetime)
  }

  function AddAll(tokens: seq<string>, tag: Tag, lifetime: string): seq<string>
  {
    AddField(AddField(AddField(AddField(AddField(tokens,
      "country", tag.country), "state", tag.state), "city", tag.city), "session", tag.session), "lifetime", lifetime)
  }

  lemma SplitAll(base: string, tag: Tag, lifetime: string)
    requires DashFree(tag) && '-' !in lifetime
    ensures Split(PrintAll(base, tag, lifetime), '-') == AddAll(Split(base, '-'), tag, lifetime)
  {
    var s1 := base + FieldText("country", tag.country);
    var s2 := s1 + FieldText("state", tag.state);
    var s3 := s2 + FieldText("city", tag.city);
    var s4 := s3 + FieldText("session", tag.session);
    SplitField(base, "country", tag.country);
    SplitField(s1, "state", tag.state);
    SplitField(s2, "city", tag.city);
    SplitField(s3, "session", tag.session);
    SplitField(s4, "lifetime", lifetime);
  }

  /** The field a printed tag carries under a key. */
  function Value(tag: Tag, lifetime: string, key: string): string
  {
    if key == "country" then tag.country
    else if key == "state" then tag.state
    else if key == "city" then tag.city
    else if key == "session" then tag.session
    else if key == "lifetime" then lifetime
    else ""
  }

  function LookAll(l: Look, tag: Tag, lifetime: string, key: string): Look
  {
    Next(Next(Next(Next(Next(l, "country", tag.country, key), "state", tag.state, key),
      "city", tag.city, key), "session", tag.session, key), "lifetime", lifetime, key)
  }

  lemma LookAllAt(tokens: seq<string>, tag: Tag, lifetime: string, key: string)
    requires tokens != []
    ensures LookAt(AddAll(tokens, tag, lifetime), key) == LookAll(LookAt(tokens, key), tag, lifetime, key)
  {
    var t1 := AddField(tokens, "country", tag.country);
    var t2 := AddField(t1, "state", tag.state);
    var t3 := AddField(t2, "city", tag.city);
    var t4 := AddField(t3, "session", tag.session);
    LookField(tokens, "country", tag.country, key);
    LookField(t1, "state", tag.state, key);
    LookField(t2, "city", tag.city, key);
    LookField(t3, "session", tag.session, key);
    LookField(t4, "lifetime", lifetime, key);
  }

  // The key printed behind each field, if one is; more says whether a lifetime is.
  function BehindSession(more: bool): string { if more then "lifetime" else "" }

  function BehindCity(tag: Tag, more: bool): string { if tag.session != "" then "session" else BehindSession(more) }

  function BehindState(tag: Tag, more: bool): string { if tag.city != "" then "city" else BehindCity(tag, more) }

  function BehindCountry(tag: Tag, more: bool): string { if tag.state != "" then "state" else BehindState(tag, more) }

  /** A value that is itself the key is taken for it when another key follows. */
  predicate Takes(value: string, behind: string, key: string) { value == key && behind != "" }

  /** What a scan finds under a key among printed fields, from the last one back. */
  function Finds(tag: Tag, more: bool, key: string): string
  {
    if Takes(tag.session, BehindSession(more), key) then BehindSession(more)
    else if key == "session" && tag.session != "" then tag.session
    else if Takes(tag.city, BehindCity(tag, more), key) then BehindCity(tag, more)
    else if key == "city" && tag.city != "" then tag.city
    else if Takes(tag.state, BehindState(tag, more), key) then BehindState(tag, more)
    else if key == "state" && tag.state != "" then tag.state
    else if Takes(tag.country, BehindCountry(tag, more), key) then BehindCountry(tag, more)
    else if key == "country" then tag.country
    else ""
  }

  lemma LookAllFinds(last: string, tag: Tag, lifetime: string, key: string)
    requires IsKeyword(key) && key != "lifetime" && last != key && !IsKeyword(lifetime)
    ensures LookAll(Look("", last), tag, lifetime, key).found == Finds(tag, lifetime != "", key)
  {
    if key == "country" {
      LookCountry(last, tag, lifetime, key);
    } else if key == "state" {
      LookState(last, tag, lifetime, key);
    } else if key == "city" {
      LookCity(last, tag, lifetime, key);
    } else {
      LookSession(last, tag, lifetime, key);
    }
  }

  lemma LookCountry(last: string, tag: Tag, lifetime: string, key: string)
    requires key == "country" && last != key && !IsKeyword(lifetime)
    ensures LookAll(Look("", last), tag, lifetime, key).found == Finds(tag, lifetime != "", key)
  {}

  lemma LookState(last: string, tag: Tag, lifetime: string, key: string)
    requires key == "state" && last != key && !IsKeyword(lifetime)
    ensures LookAll(Look("", last), tag, lifetime, key).found == Finds(tag, lifetime != "", key)
  {}

  lemma LookCity(last: string, tag: Tag, lifetime: string, key: string)
    requires key == "city" && last != key && !IsKeyword(lifetime)
    ensures LookAll(Look("", last), tag, lifetime, key).found == Finds(tag, lifetime != "", key)
  {}

  lemma LookSession(last: string, tag: Tag, lifetime: string, key: string)
    requires key == "session" && last != key && !IsKeyword(lifetime)
    ensures LookAll(Look("", last), tag, lifetime, key).found == Finds(tag, lifetime != "", key)
  {}

  // ---- which keys read back --------------------------------------------

  /** Whether a key reads back although values may be keywords themselves: none
      may be taken for the key unless the key is printed behind it, or, for the
      country and the state and behind them, what follows is the value by chance. */
  predicate ReadsBack(tag: Tag, more: bool, key: string)
  {
    if Takes(tag.session, BehindSession(more), key) then Value(tag, "", key) == BehindSession(more)
    else if key == "session" then
      (Takes(tag.country, BehindCountry(tag, more), key) || Takes(tag.state, BehindState(tag, more), key)
       || Takes(tag.city, BehindCity(tag, more), key)) ==> tag.session != ""
    else if Takes(tag.city, BehindCity(tag, more), key) then Value(tag, "", key) == BehindCity(tag, more)
    else if key == "city" then
      (Takes(tag.country, BehindCountry(tag, more), key) || Takes(tag.state, BehindState(tag, more), key)) ==> tag.city != ""
    else if Takes(tag.state, BehindState(tag, more), key) then Value(tag, "", key) == BehindState(tag, more)
    else if key == "state" then Takes(tag.country, BehindCountry(tag, more), key) ==> tag.state != ""
    else !Takes(tag.country, BehindCountry(tag, more), key)
  }

  predicate KeywordsHarmless(tag: Tag, more: bool) {
    && ReadsBack(tag, more, "country") && ReadsBack(tag, more, "state")
    && ReadsBack(tag, more, "city") && ReadsBack(tag, more, "session")
  }

  predicate Ordinary(tag: Tag) {
    !IsKeyword(tag.country) && !IsKeyword(tag.state) && !IsKeyword(tag.city) && !IsKeyword(tag.session)
  }

  lemma OrdinaryValuesHarmless(tag: Tag, more: bool)
    requires Ordinary(tag)
    ensures KeywordsHarmless(tag, more)
  {}

  lemma FindsValue(tag: Tag, more: bool, key: string)
    requires IsKeyword(key) && key != "lifetime"
    ensures Finds(tag, more, key) == Value(tag, "", key) <==> ReadsBack(tag, more, key)
  {}

  /** The fields a scan finds among the printed ones of a tag. */
  function Scanned(tag: Tag, more: bool): Tag
  {
    Tag(Finds(tag, more, "country"), Finds(tag, more, "state"), Finds(tag, more, "city"), Finds(tag, more, "session"),
        tag.lifetime)
  }

  lemma ScannedIsTag(tag: Tag, more: bool)
    ensures Scanned(tag, more) == tag <==> KeywordsHarmless(tag, more)
  {
    FindsValue(tag, more, "country");
    FindsValue(tag, more, "state");
    FindsValue(tag, more, "city");
    FindsValue(tag, more, "session");
  }

  /** The one tag whose country is misread twice and comes right again, when the
      second printing has no lifetime: the city is taken for the key at first, and
      the state, which the city then follows, at the end. */
  predicate CancelsOut(tag: Tag) {
    tag.country == "city" && tag.state == "country" && tag.city == "country" && tag.session == ""
  }

  /** Whether a tag survives two printings and scans, the second one printing a
      lifetime only if it is positive. */
  predicate SurvivesTwice(tag: Tag) {
    if tag.lifetime > 0 then KeywordsHarmless(tag, true)
    else (KeywordsHarmless(tag, true) && KeywordsHarmless(tag, false)) || CancelsOut(tag)
  }

  lemma TwiceCity(tag: Tag, more: bool)
    requires !IsKeyword(tag.session) && Finds(Scanned(tag, true), more, "city") == tag.city
    ensures Finds(tag, true, "city") == tag.city
  {}

  lemma TwiceSession(tag: Tag, more: bool)
    requires !IsKeyword(tag.session) && Finds(Scanned(tag, true), more, "session") == tag.session
    ensures Finds(tag, true, "session") == tag.session
  {}

  lemma TwiceState(tag: Tag, more: bool)
    requires !IsKeyword(tag.session) && Finds(tag, true, "city") == tag.city && Finds(tag, true, "session") == tag.session
    requires Finds(Scanned(tag, true), more, "state") == tag.state
    ensures Finds(tag, true, "state") == tag.state
  {}

  lemma TwiceCountry(tag: Tag, more: bool)
    requires !IsKeyword(tag.session) && Finds(tag, true, "city") == tag.city && Finds(tag, true, "session") == tag.session
    requires Finds(tag, true, "state") == tag.state && Finds(Scanned(tag, true), more, "country") == tag.country
    ensures Finds(tag, true, "country") == tag.country || (!more && CancelsOut(tag))
  {}

  lemma CancelledComesRight(tag: Tag)
    requires CancelsOut(tag)
    ensures Scanned(Scanned(tag, true), false) == tag
  {}

  lemma TwiceScanned(tag: Tag)
    requires !IsKeyword(tag.session)
    ensures Scanned(Scanned(tag, true), tag.lifetime > 0) == tag <==> SurvivesTwice(tag)
  {
    var more := tag.lifetime > 0;
    ScannedIsTag(tag, true);
    ScannedIsTag(tag, more);
    if Scanned(Scanned(tag, true), more) == tag {
      TwiceCity(tag, more);
      TwiceSession(tag, more);
      TwiceState(tag, more);
      TwiceCountry(tag, more);
    }
    if CancelsOut(tag) {
      CancelledComesRight(tag);
    }
  }

  predicate NothingPrinted(tag: Tag, lifetime: string) {
    tag.country == "" && tag.state == "" && tag.city == "" && tag.session == "" && lifetime == ""
  }

  lemma LookAllFound(last: string, tag: Tag, lifetime: string, key: string)
    requires CleanTag(tag) && !IsKeyword(lifetime) && IsKeyword(key)
    ensures LookAll(Look("", last), tag, lifetime, key).found == Value(tag, lifetime, key)
       <==> (Value(tag, lifetime, key) != "" || last != key || NothingPrinted(tag, lifetime))
  {}

  /** Scanning base tokens followed by every printed field finds the printed
      value of a key, except when the base ends in that very key, the key is
      not printed and something else is. */
  lemma AfterAll(tokens: seq<string>, tag: Tag, lifetime: string, key: string)
    requires tokens != [] && CleanTag(tag) && !IsKeyword(lifetime) && IsKeyword(key)
    requires key !in tokens[..|tokens| - 1]
    ensures After(AddAll(tokens, tag, lifetime), key) == Value(tag, lifetime, key)
       <==> (Value(tag, lifetime, key) != "" || tokens[|tokens| - 1] != key || NothingPrinted(tag, lifetime))
  {
    AfterPrefix(tokens, key);
    LookAllAt(tokens, tag, lifetime, key);
    LookAllFound(tokens[|tokens| - 1], tag, lifetime, key);
  }

  /** What a scan finds is a token, or nothing. */
  lemma {:induction false} AfterFrom(tokens: seq<string>, key: string)
    ensures After(tokens, key) == "" || After(tokens, key) in tokens
  {
    if |tokens| >= 2 {
      AfterFrom(tokens[..|tokens| - 1], key);
    }
  }

  /** A scanned field holds no separator and no character that the text lacks. */
  lemma ScannedFree(s: string, c: char)
    requires c !in s || c == '-'
    ensures var tag := ScanTag(Split(s, '-'));
            c !in tag.country && c !in tag.state && c !in tag.city && c !in tag.session
  {
    var tokens := Split(s, '-');
    if c != '-' {
      SplitKeeps(s, '-', c);
    }
    AfterFrom(tokens, "country");
    AfterFrom(tokens, "state");
    AfterFrom(tokens, "city");
    AfterFrom(tokens, "session");
  }

  lemma ScannedDashFree(s: string)
    ensures DashFree(ScanTag(Split(s, '-')))
  {
    ScannedFree(s, '-');
  }

  /** Printed fields behind keyword-free tokens scan back to themselves. */
  lemma ScanAll(tokens: seq<string>, tag: Tag, lifetime: string)
    requires tokens != [] && CleanTag(tag) && !IsKeyword(lifetime)
    requires forall t :: t in tokens ==> !IsKeyword(t)
    ensures ScanTag(AddAll(tokens, tag, lifetime)) == tag.(lifetime := Atoi(lifetime))
  {
    FoundBehind(tokens, tag, lifetime, "country");
    FoundBehind(tokens, tag, lifetime, "state");
    FoundBehind(tokens, tag, lifetime, "city");
    FoundBehind(tokens, tag, lifetime, "session");
    FoundBehind(tokens, tag, lifetime, "lifetime");
  }

  lemma FoundBehind(tokens: seq<string>, tag: Tag, lifetime: string, key: string)
    requires tokens != [] && CleanTag(tag) && !IsKeyword(lifetime) && IsKeyword(key)
    requires forall t :: t in tokens ==> !IsKeyword(t)
    ensures After(AddAll(tokens, tag, lifetime), key) == Value(tag, lifetime, key)
  {
    assert tokens[|tokens| - 1] in tokens;
    assert forall t :: t in tokens[..|tokens| - 1] ==> t in tokens;
    AfterAll(tokens, tag, lifetime, key);
  }
}
