/** Invitation links: the paths that carry an invitation and the functions that read it back. */
module AuthLinks {
  import opened Common
  import opened FormUrl
  import opened Utf16

  const SIGN_IN: Text := Ascii("/sign-in")
  const SIGN_UP: Text := Ascii("/sign-up")
  const APP: Text := Ascii("/app")
  const INVITATION: Text := Ascii("invitation")
  const VERIFIED: Text := Ascii("verified")
  const ONE: Text := Ascii("1")
  const COLLABORATION: Text := Ascii("collaboration")
  const QUESTION: Unit := 0x3F
  const HASH: Unit := 0x23
  const SLASH: Unit := 0x2F
  const VERIFICATION_PATH: Text := SIGN_IN + ([QUESTION] + (VERIFIED + ([EQUALS] + ONE)))

  /** `current.hash` and `current.search` without their first character. */
  datatype Url = Url(origin: Text, pathname: Text, query: Text, fragment: Text)

  predicate IsIdUnit(u: int) { IsAlnum(u) || u == 0x5F || u == 0x2D }

  predicate IsInvitationId(s: Text) {
    16 <= |s| <= 128 && IsAlnum(s[0]) && forall i :: 0 <= i < |s| ==> IsIdUnit(s[i])
  }

  function Normalized(value: Option<Text>): Option<Text> {
    if value.None? then None
    else if IsInvitationId(Trim(value.value)) then Some(Trim(value.value)) else None
  }

  /** `new URLSearchParams({ invitation: id })`, as a string. */
  function InvitationQuery(id: Text): Text
    requires Bytes(id)
  {
    INVITATION + ([EQUALS] + Encoded(id))
  }

  lemma IdIsPlain(id: Text)
    requires IsInvitationId(id)
    ensures Bytes(id) && Encoded(id) == id
  {
    PlainIsUnchanged(id);
  }

  // ---- Printers. ----

  function VerificationCallbackPath(invitationId: Option<Text>): Text {
    var n := Normalized(invitationId);
    if n.None? then VERIFICATION_PATH
    else
      IdIsPlain(n.value);
      VERIFICATION_PATH + ([AMPERSAND] + InvitationQuery(n.value))
  }

  function AuthPath(path: Text, invitationId: Option<Text>): Text {
    var n := Normalized(invitationId);
    if n.None? then path
    else
      IdIsPlain(n.value);
      path + ([QUESTION] + InvitationQuery(n.value))
  }

  function ApplicationPath(invitationId: Option<Text>): Text {
    var n := Normalized(invitationId);
    if n.None? then APP
    else
      IdIsPlain(n.value);
      APP + ([QUESTION] + (InvitationQuery(n.value) + ([HASH] + COLLABORATION)))
  }

  // ---- URLs. ----

  /** Characters that the URL parser leaves as they are in a path, a query and a fragment. */
  predicate IsPlain(s: Text) {
    && |s| >= 2 && s[0] == SLASH && s[1] != SLASH
    && forall i :: 0 <= i < |s| ==> IsIdUnit(s[i]) || s[i] in {SLASH, QUESTION, HASH, AMPERSAND, EQUALS}
  }

  function SplitUrl(origin: Text, s: Text): Url {
    var beforeHash := Before(s, HASH);
    Url(origin, Before(beforeHash, QUESTION), After(beforeHash, QUESTION), After(s, HASH))
  }

  /** `new URL(text)` at an origin; all that is assumed of it is what it does with plain paths. */
  type UrlParser = Text -> Option<Url>

  ghost predicate ParsesPlain(parse: UrlParser, origin: Text) {
    forall s :: IsPlain(s) ==> parse(origin + s) == Some(SplitUrl(origin, s))
  }

  function GetAll(pairs: seq<Pair>, name: Text): seq<Text> {
    if pairs == [] then []
    else (if pairs[0].name == name then [pairs[0].value] else []) + GetAll(pairs[1..], name)
  }

  // ---- Recognisers. ----

  /** The text is taken relative to a base of the given origin. */
  predicate IsVerificationCallbackPath(parse: UrlParser, base: Text, value: Text) {
    value == VERIFICATION_PATH
    || var parsed := parse(base + value);
       && parsed.Some?
       && parsed.value.origin == base
       && parsed.value.pathname == SIGN_IN
       && parsed.value.fragment == []
       && var pairs := ParseForm(parsed.value.query);
          && GetAll(pairs, VERIFIED) == [ONE]
          && |GetAll(pairs, INVITATION)| == 1
          && (forall i :: 0 <= i < |pairs| ==> pairs[i].name == VERIFIED || pairs[i].name == INVITATION)
          && Normalized(Some(GetAll(pairs, INVITATION)[0])).Some?
          && VerificationCallbackPath(Some(Normalized(Some(GetAll(pairs, INVITATION)[0])).value)) == value
  }

  function InvitationIdFromUrl(parse: UrlParser, rawUrl: Text, origin: Text): Option<Text> {
    var current := parse(rawUrl);
    if current.None? || current.value.origin != origin || current.value.pathname !in {SIGN_IN, SIGN_UP, APP} then None
    else
      var ids := GetAll(ParseForm(current.value.query), INVITATION);
      if |ids| != 1 then None else Normalized(Some(ids[0]))
  }

  // ---- Reading back what was printed. ----

  lemma InvitationIsPlain()
    ensures Bytes(INVITATION) && Encoded(INVITATION) == INVITATION
  {
    AllKept(INVITATION);
  }

  lemma VerifiedIsPlain()
    ensures Bytes(VERIFIED) && Encoded(VERIFIED) == VERIFIED
    ensures Bytes(ONE) && Encoded(ONE) == ONE
  {
    AllKept(VERIFIED);
    AllKept(ONE);
  }

  lemma AllKept(s: Text)
    requires forall i :: 0 <= i < |s| ==> KeptAsIs(s[i])
    ensures Bytes(s) && Encoded(s) == s
  {
    PlainIsUnchanged(s);
  }

  lemma PairsParse(p: Pair, q: Pair)
    requires Bytes(p.name) && Bytes(p.value) && Bytes(q.name) && Bytes(q.value)
    requires Encoded(p.name) == p.name && Encoded(p.value) == p.value
    requires Encoded(q.name) == q.name && Encoded(q.value) == q.value
    ensures ParseForm(p.name + ([EQUALS] + p.value)) == [p]
    ensures ParseForm(p.name + ([EQUALS] + p.value) + ([AMPERSAND] + (q.name + ([EQUALS] + q.value)))) == [p, q]
  {
    FormRoundTrips([p]);
    FormRoundTrips([p, q]);
    assert [p, q][1..] == [q];
  }

  lemma QueryParses(id: Text)
    requires IsInvitationId(id)
    ensures Bytes(id) && ParseForm(InvitationQuery(id)) == [Pair(INVITATION, id)]
  {
    InvitationIsPlain();
    IdIsPlain(id);
    PairsParse(Pair(INVITATION, id), Pair(INVITATION, id));
  }

  lemma VerifiedQueryParses(id: Text)
    requires IsInvitationId(id)
    ensures Bytes(id)
    ensures ParseForm(VERIFIED + ([EQUALS] + ONE) + ([AMPERSAND] + InvitationQuery(id))) ==
            [Pair(VERIFIED, ONE), Pair(INVITATION, id)]
  {
    InvitationIsPlain();
    VerifiedIsPlain();
    IdIsPlain(id);
    PairsParse(Pair(VERIFIED, ONE), Pair(INVITATION, id));
  }

  lemma IdNormalizes(id: Text)
    requires IsInvitationId(id)
    ensures Normalized(Some(id)) == Some(id)
  {
    TrimmedExactly(id);
  }

  predicate QueryUnits(s: Text) {
    forall i :: 0 <= i < |s| ==> IsIdUnit(s[i]) || s[i] in {AMPERSAND, EQUALS}
  }

  lemma InvitationQueryUnits(id: Text)
    requires IsInvitationId(id)
    ensures Bytes(id) && QueryUnits(InvitationQuery(id))
  {
    IdIsPlain(id);
  }

  predicate IsPath(path: Text) {
    && |path| >= 2 && path[0] == SLASH && path[1] != SLASH
    && forall i :: 0 <= i < |path| ==> IsIdUnit(path[i]) || path[i] == SLASH
  }

  /** A path with a query, and perhaps a fragment, splits into just these. */
  lemma LinkSplits(origin: Text, path: Text, query: Text, fragment: Text)
    requires IsPath(path) && QueryUnits(query) && QueryUnits(fragment)
    ensures IsPlain(path + ([QUESTION] + query))
    ensures SplitUrl(origin, path + ([QUESTION] + query)) == Url(origin, path, query, [])
    ensures IsPlain(path + ([QUESTION] + (query + ([HASH] + fragment))))
    ensures SplitUrl(origin, path + ([QUESTION] + (query + ([HASH] + fragment)))) == Url(origin, path, query, fragment)
  {
    var s := path + ([QUESTION] + query);
    SplitAt(path, QUESTION, query);
    NothingToSplit(s, HASH);
    assert path + ([QUESTION] + (query + ([HASH] + fragment))) == s + ([HASH] + fragment);
    SplitAt(s, HASH, fragment);
  }

  lemma PathAloneSplits(origin: Text, path: Text)
    requires IsPath(path)
    ensures IsPlain(path) && SplitUrl(origin, path) == Url(origin, path, [], [])
  {
    NothingToSplit(path, HASH);
    NothingToSplit(path, QUESTION);
  }

  lemma PathsArePaths()
    ensures IsPath(SIGN_IN) && IsPath(SIGN_UP) && IsPath(APP) && QueryUnits(COLLABORATION)
    ensures QueryUnits(VERIFIED + ([EQUALS] + ONE))
  {
  }

  lemma OneOfAll(name: Text, value: Text)
    ensures GetAll([Pair(name, value)], name) == [value]
  {
    assert [Pair(name, value)][1..] == [];
  }

  lemma ReadsBack(parse: UrlParser, link: Text, origin: Text, path: Text, query: Text, fragment: Text, id: Text)
    requires parse(link) == Some(Url(origin, path, query, fragment)) && path in {SIGN_IN, SIGN_UP, APP}
    requires ParseForm(query) == [Pair(INVITATION, id)] && Normalized(Some(id)) == Some(id)
    ensures InvitationIdFromUrl(parse, link, origin) == Some(id)
  {
    OneOfAll(INVITATION, id);
  }

  lemma NothingToRead(parse: UrlParser, link: Text, origin: Text, path: Text)
    requires parse(link) == Some(Url(origin, path, [], []))
    ensures InvitationIdFromUrl(parse, link, origin) == None
  {
  }

  lemma LinkReadsBack(parse: UrlParser, origin: Text, path: Text, id: Text)
    requires ParsesPlain(parse, origin) && path in {SIGN_IN, SIGN_UP, APP} && IsPath(path)
    requires IsInvitationId(id) && Bytes(id)
    ensures InvitationIdFromUrl(parse, origin + (path + ([QUESTION] + InvitationQuery(id))), origin) == Some(id)
  {
    var query := InvitationQuery(id);
    QueryParses(id);
    InvitationQueryUnits(id);
    IdNormalizes(id);
    LinkSplits(origin, path, query, []);
    ReadsBack(parse, origin + (path + ([QUESTION] + query)), origin, path, query, [], id);
  }

  lemma FragmentLinkReadsBack(parse: UrlParser, origin: Text, path: Text, id: Text, fragment: Text)
    requires ParsesPlain(parse, origin) && path in {SIGN_IN, SIGN_UP, APP} && IsPath(path)
    requires IsInvitationId(id) && Bytes(id)
    requires QueryUnits(fragment)
    ensures var link := origin + (path + ([QUESTION] + (InvitationQuery(id) + ([HASH] + fragment))));
            InvitationIdFromUrl(parse, link, origin) == Some(id)
  {
    var query := InvitationQuery(id);
    QueryParses(id);
    InvitationQueryUnits(id);
    IdNormalizes(id);
    LinkSplits(origin, path, query, fragment);
    ReadsBack(parse, origin + (path + ([QUESTION] + (query + ([HASH] + fragment)))), origin, path, query, fragment, id);
  }

  /** Reading back a printed sign-in or sign-up link gives the normalised identifier. */
  lemma AuthLinksRoundTrip(parse: UrlParser, origin: Text, path: Text, raw: Option<Text>)
    requires ParsesPlain(parse, origin) && path in {SIGN_IN, SIGN_UP}
    ensures InvitationIdFromUrl(parse, origin + AuthPath(path, raw), origin) == Normalized(raw)
  {
    PathsArePaths();
    if Normalized(raw).None? {
      PathAloneSplits(origin, path);
      NothingToRead(parse, origin + path, origin, path);
    } else {
      IdIsPlain(Normalized(raw).value);
      LinkReadsBack(parse, origin, path, Normalized(raw).value);
    }
  }

  /** So does reading back an application link, whose fragment names the collaboration view. */
  lemma ApplicationLinksRoundTrip(parse: UrlParser, origin: Text, raw: Option<Text>)
    requires ParsesPlain(parse, origin)
    ensures InvitationIdFromUrl(parse, origin + ApplicationPath(raw), origin) == Normalized(raw)
  {
    PathsArePaths();
    if Normalized(raw).None? {
      PathAloneSplits(origin, APP);
      NothingToRead(parse, origin + APP, origin, APP);
    } else {
      IdIsPlain(Normalized(raw).value);
      FragmentLinkReadsBack(parse, origin, APP, Normalized(raw).value, COLLABORATION);
    }
  }

  lemma TwoOfAll(a: Text, x: Text, b: Text, y: Text)
    requires a != b
    ensures GetAll([Pair(a, x), Pair(b, y)], a) == [x] && GetAll([Pair(a, x), Pair(b, y)], b) == [y]
  {
    assert [Pair(a, x), Pair(b, y)][1..] == [Pair(b, y)];
    OneOfAll(b, y);
    assert [Pair(b, y)][1..] == [];
    assert GetAll([Pair(b, y)], a) == GetAll([], a) == [];
  }

  lemma PathsAreRecognised(parse: UrlParser, base: Text, value: Text, query: Text, id: Text)
    requires parse(base + value) == Some(Url(base, SIGN_IN, query, []))
    requires ParseForm(query) == [Pair(VERIFIED, ONE), Pair(INVITATION, id)] && VERIFIED != INVITATION
    requires Normalized(Some(id)) == Some(id) && VerificationCallbackPath(Some(id)) == value
    ensures IsVerificationCallbackPath(parse, base, value)
  {
    TwoOfAll(VERIFIED, ONE, INVITATION, id);
  }

  lemma VerifiedPath(id: Text)
    requires IsInvitationId(id) && Bytes(id) && Normalized(Some(id)) == Some(id)
    ensures VerificationCallbackPath(Some(id)) ==
            SIGN_IN + ([QUESTION] + (VERIFIED + ([EQUALS] + ONE) + ([AMPERSAND] + InvitationQuery(id))))
  {
    var first, second := VERIFIED + ([EQUALS] + ONE), [AMPERSAND] + InvitationQuery(id);
    assert SIGN_IN + ([QUESTION] + first) + second == SIGN_IN + ([QUESTION] + (first + second));
  }

  lemma VerifiedQueryUnits(id: Text)
    requires IsInvitationId(id) && Bytes(id)
    ensures QueryUnits(VERIFIED + ([EQUALS] + ONE) + ([AMPERSAND] + InvitationQuery(id)))
  {
    PathsArePaths();
    InvitationQueryUnits(id);
  }

  lemma PrintedPathIsRecognised(parse: UrlParser, base: Text, raw: Option<Text>)
    requires ParsesPlain(parse, base)
    ensures IsVerificationCallbackPath(parse, base, VerificationCallbackPath(raw))
  {
    if Normalized(raw).Some? {
      var id := Normalized(raw).value;
      IdIsPlain(id);
      IdNormalizes(id);
      VerifiedQueryParses(id);
      VerifiedQueryUnits(id);
      VerifiedPath(id);
      PathsArePaths();
      NamesDiffer();
      var query := VERIFIED + ([EQUALS] + ONE) + ([AMPERSAND] + InvitationQuery(id));
      LinkSplits(base, SIGN_IN, query, []);
      PathsAreRecognised(parse, base, VerificationCallbackPath(raw), query, id);
    }
  }

  lemma NamesDiffer()
    ensures VERIFIED != INVITATION
  {
    assert |VERIFIED| == 8 && |INVITATION| == 10;
  }

  /** The recogniser of verification callback paths accepts exactly what their printer prints. */
  lemma VerificationPathsExactly(parse: UrlParser, base: Text, value: Text)
    requires ParsesPlain(parse, base)
    ensures IsVerificationCallbackPath(parse, base, value) <==> exists raw :: value == VerificationCallbackPath(raw)
  {
    if IsVerificationCallbackPath(parse, base, value) {
      if value == VERIFICATION_PATH {
        assert value == VerificationCallbackPath(None);
      }
    }
    if raw :| value == VerificationCallbackPath(raw) {
      PrintedPathIsRecognised(parse, base, raw);
    }
  }

  // ---- What is printed. ----

  predicate IsAscii(s: string) {
    forall i :: 0 <= i < |s| ==> s[i] as int < 0x80
  }

  lemma AsciiOfParts(a: string, b: string)
    requires IsAscii(a) && IsAscii(b)
    ensures IsAscii(a + b) && Ascii(a + b) == Ascii(a) + Ascii(b)
  {
  }

  lemma QueryText()
    ensures Ascii("?invitation=") == [QUESTION] + (INVITATION + [EQUALS])
  {
    AsciiOfParts("?", "invitation");
    AsciiOfParts("?invitation", "=");
    assert "?" + "invitation" == "?invitation" && "?invitation" + "=" == "?invitation=";
  }

  lemma Associate(a: Text, b: Text, c: Text, d: Text)
    ensures a + (b + c) + d == a + (b + (c + d))
  {
  }

  lemma QueryOfId(id: Text)
    requires IsInvitationId(id)
    ensures Bytes(id) && InvitationQuery(id) == (INVITATION + [EQUALS]) + id
    ensures Normalized(Some(id)) == Some(id)
  {
    TrimmedExactly(id);
    IdIsPlain(id);
  }

  /** Links to the sign-in and sign-up pages, as text: the path and the identifier as it is. */
  lemma PrintedAuthLink(id: Text, path: string)
    requires IsInvitationId(id) && path in {"/sign-in", "/sign-up"}
    ensures IsAscii(path + "?invitation=")
    ensures AuthPath(Ascii(path), Some(id)) == Ascii(path + "?invitation=") + id
  {
    QueryOfId(id);
    QueryText();
    AsciiOfParts(path, "?invitation=");
    Associate(Ascii(path), [QUESTION], INVITATION + [EQUALS], id);
  }

  lemma ApplicationText()
    ensures Ascii("/app?invitation=") == APP + ([QUESTION] + (INVITATION + [EQUALS]))
    ensures Ascii("#collaboration") == [HASH] + COLLABORATION
  {
    QueryText();
    AsciiOfParts("/app", "?invitation=");
    AsciiOfParts("#", "collaboration");
    assert "/app" + "?invitation=" == "/app?invitation=" && "#" + "collaboration" == "#collaboration";
  }

  lemma AssociateFive(a: Text, b: Text, c: Text, d: Text, e: Text)
    ensures a + (b + c) + d + e == a + (b + ((c + d) + e))
  {
  }

  /** The application link also names the section. */
  lemma PrintedApplicationLink(id: Text)
    requires IsInvitationId(id)
    ensures ApplicationPath(Some(id)) == Ascii("/app?invitation=") + id + Ascii("#collaboration")
  {
    QueryOfId(id);
    ApplicationText();
    AssociateFive(APP, [QUESTION], INVITATION + [EQUALS], id, [HASH] + COLLABORATION);
  }

  /** Whatever the link, an identifier read from it has 16 to 128 letters, digits, underscores and hyphens. */
  lemma ReadIdentifiers(parse: UrlParser, rawUrl: Text, origin: Text)
    ensures var id := InvitationIdFromUrl(parse, rawUrl, origin);
            id.Some? ==>
              && 16 <= |id.value| <= 128
              && forall i :: 0 <= i < |id.value| ==>
                   id.value[i] < 0x80
                   && var c := id.value[i] as char;
                      '0' <= c <= '9' || 'A' <= c <= 'Z' || 'a' <= c <= 'z' || c in "_-"
  {
  }

  // ---- What is read. ----

  predicate AllWhite(s: Text) {
    forall i :: 0 <= i < |s| ==> IsWhite(s[i])
  }

  ghost predicate Surrounded(v: Text, a: Text, id: Text, b: Text) {
    v == a + id + b && AllWhite(a) && AllWhite(b)
  }

  lemma {:induction false} TrimStartSplits(s: Text) returns (a: Text)
    ensures s == a + TrimStart(s) && AllWhite(a)
    ensures TrimStart(s) != [] ==> !IsWhite(TrimStart(s)[0])
  {
    a := [];
    if s != [] && IsWhite(s[0]) {
      var b := TrimStartSplits(s[1..]);
      a := [s[0]] + b;
    }
  }

  lemma {:induction false} TrimEndSplits(s: Text) returns (b: Text)
    ensures s == TrimEnd(s) + b && AllWhite(b)
  {
    b := [];
    if s != [] && IsWhite(s[|s| - 1]) {
      var c := TrimEndSplits(s[..|s| - 1]);
      b := c + [s[|s| - 1]];
    }
  }

  lemma {:induction false} TrimStartOf(a: Text, rest: Text)
    requires AllWhite(a) && (rest == [] || !IsWhite(rest[0]))
    ensures TrimStart(a + rest) == rest
  {
    if a != [] {
      TrimStartOf(a[1..], rest);
      assert (a + rest)[1..] == a[1..] + rest;
    } else {
      assert a + rest == rest;
    }
  }

  lemma {:induction false} TrimEndOf(front: Text, b: Text)
    requires AllWhite(b) && (front == [] || !IsWhite(front[|front| - 1]))
    ensures TrimEnd(front + b) == front
    decreases |b|
  {
    if b != [] {
      TrimEndOf(front, b[..|b| - 1]);
      assert (front + b)[..|front + b| - 1] == front + b[..|b| - 1];
    } else {
      assert front + b == front;
    }
  }

  /** A value gives an identifier exactly if it is one with white space around it. */
  lemma NormalizedExactly(v: Text, id: Text)
    ensures Normalized(Some(v)) == Some(id) <==>
            IsInvitationId(id) && exists a, b :: Surrounded(v, a, id, b)
  {
    var a := TrimStartSplits(v);
    var b := TrimEndSplits(TrimStart(v));
    assert v == a + Trim(v) + b;
    assert Surrounded(v, a, Trim(v), b);
    if a', b' :| IsInvitationId(id) && Surrounded(v, a', id, b') {
      assert a' + id + b' == a' + (id + b');
      assert (id + b')[0] == id[0];
      TrimStartOf(a', id + b');
      TrimEndOf(id, b');
    }
  }

  lemma {:induction false} GetAllIsOne(pairs: seq<Pair>, name: Text, value: Text)
    ensures GetAll(pairs, name) == [] <==> forall i :: 0 <= i < |pairs| ==> pairs[i].name != name
    ensures GetAll(pairs, name) == [value] <==> exists k :: OnlyPair(pairs, name, value, k)
  {
    if pairs != [] {
      GetAllIsOne(pairs[1..], name, value);
      var rest := pairs[1..];
      if pairs[0].name == name {
        assert GetAll(pairs, name) == [pairs[0].value] + GetAll(rest, name);
        if GetAll(pairs, name) == [value] {
          assert GetAll(rest, name) == GetAll(pairs, name)[1..] && pairs[0].value == GetAll(pairs, name)[0];
          assert OnlyPair(pairs, name, value, 0);
        }
        if k :| OnlyPair(pairs, name, value, k) {
          assert k == 0;
          assert forall i :: 0 <= i < |rest| ==> rest[i] == pairs[i + 1];
        }
      } else {
        assert GetAll(pairs, name) == GetAll(rest, name);
        if k :| OnlyPair(rest, name, value, k) {
          assert OnlyPair(pairs, name, value, k + 1);
        }
        if k :| OnlyPair(pairs, name, value, k) {
          assert OnlyPair(rest, name, value, k - 1);
        }
        assert (forall i :: 0 <= i < |rest| ==> rest[i].name != name) ==>
               forall i :: 1 <= i < |pairs| ==> pairs[i] == rest[i - 1] && pairs[i].name != name;
      }
    }
  }

  /** This pair, and no other, has the name. */
  predicate OnlyPair(pairs: seq<Pair>, name: Text, value: Text, k: int) {
    0 <= k < |pairs| && pairs[k].name == name && pairs[k].value == value
    && forall i :: 0 <= i < |pairs| && i != k ==> pairs[i].name != name
  }

  /** The address is one of the application's own that can carry an invitation, and has this one and no other. */
  ghost predicate Carries(parse: UrlParser, rawUrl: Text, origin: Text, value: Text) {
    var u := parse(rawUrl);
    && u.Some? && u.value.origin == origin
    && (u.value.pathname == SIGN_IN || u.value.pathname == SIGN_UP || u.value.pathname == APP)
    && exists k :: OnlyPair(ParseForm(u.value.query), INVITATION, value, k)
  }

  /** An identifier is read exactly from such an address, and is the one it carries. */
  lemma ReadExactly(parse: UrlParser, rawUrl: Text, origin: Text, id: Text)
    ensures InvitationIdFromUrl(parse, rawUrl, origin) == Some(id) <==>
            exists value :: Carries(parse, rawUrl, origin, value) && Normalized(Some(value)) == Some(id)
  {
    var u := parse(rawUrl);
    if u.Some? {
      var pairs := ParseForm(u.value.query);
      var ids := GetAll(pairs, INVITATION);
      if |ids| == 1 {
        assert ids == [ids[0]];
        GetAllIsOne(pairs, INVITATION, ids[0]);
      }
      if value :| Carries(parse, rawUrl, origin, value) && Normalized(Some(value)) == Some(id) {
        GetAllIsOne(pairs, INVITATION, value);
      }
    }
  }
}
