/**
  Vector ids: the text each id is the hash of, which requests share an id, and
  what a row of the state table remembers of its own.
 */
module VectorIds {
  import opened Wrappers
  import opened Text
  import opened VectorDocuments
  import opened VectorIndexer
  import opened VectorIndexRuns
  import IndexConsumer

  lemma {:induction false} FirstPart(p: string, q: string, x: string, y: string)
    requires NoBar(p) && NoBar(q) && p + "|" + x == q + "|" + y
    ensures p == q && x == y
  {
    var s := p + "|" + x;
    assert s == q + "|" + y;
    assert s[|p|] == '|' && s[|q|] == '|';
    assert |p| == |q|;
    assert p == s[..|p|] == q;
    assert x == s[|p| + 1..] == y;
  }

  lemma {:induction false} JoinDetermines(p: seq<string>, q: seq<string>)
    requires |p| == |q| && (forall s <- p :: NoBar(s)) && (forall s <- q :: NoBar(s))
    requires Join(p, "|") == Join(q, "|")
    ensures p == q
  {
    if |p| > 1 {
      assert p[0] in p && q[0] in q;
      FirstPart(p[0], q[0], Join(p[1..], "|"), Join(q[1..], "|"));
      JoinDetermines(p[1..], q[1..]);
      assert p == [p[0]] + p[1..] && q == [q[0]] + q[1..];
    }
  }

  function IdParts(e: Event, sourceType: string, position: nat): seq<string> {
    [Lower(Trim(e.tenantId)), Lower(Trim(e.sourceService)), Lower(Trim(e.entityType)), Trim(e.entityId),
     Lower(Trim(sourceType)), Trim(e.contentVersion), Decimal(position)]
  }

  // Without bars in the fields, the hashed texts are equal exactly when all the fields are.
  lemma IdTextDetermines(e: Event, st: string, i: nat, e': Event, st': string, i': nat)
    requires forall s <- IdParts(e, st, i) + IdParts(e', st', i') :: NoBar(s)
    ensures VectorIdText(e, st, i) == VectorIdText(e', st', i') <==> IdParts(e, st, i) == IdParts(e', st', i')
    ensures VectorIdText(e, st, i) == VectorIdText(e', st', i') ==> i == i'
  {
    hide Lower, Trim;
    if VectorIdText(e, st, i) == VectorIdText(e', st', i') {
      JoinDetermines(IdParts(e, st, i), IdParts(e', st', i'));
      assert IdParts(e, st, i)[6] == IdParts(e', st', i')[6];
      DecimalRoundTrip(i);
      DecimalRoundTrip(i');
    }
  }

  lemma {:induction false} JoinLast(parts: seq<string>, last: string)
    requires parts != []
    ensures Join(parts + [last], "|") == Join(parts, "|") + "|" + last
  {
    if |parts| > 1 {
      JoinLast(parts[1..], last);
      assert (parts + [last])[1..] == parts[1..] + [last];
    } else {
      assert (parts + [last])[1..] == [last];
    }
  }

  lemma LastPart(x: string, y: string, p: string, q: string)
    requires NoBar(p) && NoBar(q) && x + "|" + p == y + "|" + q
    ensures p == q
  {
    var s := x + "|" + p;
    assert s == y + "|" + q && s[|x|] == '|' && s[|y|] == '|';
    assert |x| == |y|;
    assert p == s[|x| + 1..] == q;
  }

  // Two documents of one event never share the hashed text, bars or not.
  lemma PositionsTellApart(e: Event, st: string, i: nat, st': string, j: nat)
    requires VectorIdText(e, st, i) == VectorIdText(e, st', j)
    ensures i == j
  {
    var p, q := IdParts(e, st, i), IdParts(e, st', j);
    JoinLast(p[..6], p[6]);
    JoinLast(q[..6], q[6]);
    assert p == p[..6] + [p[6]] && q == q[..6] + [q[6]];
    DecimalRoundTrip(i);
    DecimalRoundTrip(j);
    LastPart(Join(p[..6], "|"), Join(q[..6], "|"), p[6], q[6]);
  }

  // With a collision-free hash the vector ids of one request are distinct.
  lemma RequestIdsDiffer(c: Config, e: Event, docs: seq<Doc>)
    requires forall x, y :: c.sha(x) == c.sha(y) ==> x == y
    ensures IdsDiffer(Plan(c, e, docs))
  {
    var plan := Plan(c, e, docs);
    forall i, j | 0 <= i < j < |plan| && plan[i].Some? && plan[j].Some?
      ensures plan[i].value.id != plan[j].value.id
    {
      if plan[i].value.id == plan[j].value.id {
        var x, y := VectorIdText(e, docs[i].sourceType, i), VectorIdText(e, docs[j].sourceType, j);
        assert ("zord_" + c.sha(x))[5..] == c.sha(x) && ("zord_" + c.sha(y))[5..] == c.sha(y);
        PositionsTellApart(e, docs[i].sourceType, i, docs[j].sourceType, j);
      }
    }
  }

  // ---- Entities that share an id -----------------------------------------------------

  // A request has one document, of the entity's type, at position 0.
  function IdText(e: Event): string {
    VectorIdText(e, EntitySourceType(e), 0)
  }

  // What a request is about, as far as the id text tells.
  datatype Subject = Subject(tenant: string, service: string, entityType: string, id: string, version: string)

  function SubjectOf(e: Event): Subject {
    Subject(Fold(e.tenantId), Fold(e.sourceService), Fold(e.entityType), Trim(e.entityId), Trim(e.contentVersion))
  }

  // A request the consumer accepts, with no bar in the names of service and type.
  predicate Plain(e: Event) {
    && IsUuidText(Fold(e.tenantId)) && NoBar(Fold(e.sourceService)) && NoBar(Fold(e.entityType))
    && Fold(e.entityType) != "" && Trim(e.entityId) != ""
  }

  function Separator(e: Event): string {
    "|" + EntitySourceType(e) + "|"
  }

  // The part of the id text in which bars are not accounted for.
  function Tail(e: Event): string {
    Trim(e.entityId) + Separator(e) + Trim(e.contentVersion)
  }

  lemma Regroup(id: string, st: string, version: string, position: string)
    ensures id + "|" + (st + "|" + (version + "|" + position)) == id + ("|" + st + "|") + version + "|" + position
  {
  }

  lemma JoinCons(x: string, rest: seq<string>)
    requires rest != []
    ensures Join([x] + rest, "|") == x + "|" + Join(rest, "|")
  {
    assert ([x] + rest)[1..] == rest;
  }

  lemma JoinSeven(a: string, b: string, c: string, d: string, e: string, f: string, g: string)
    ensures Join([a, b, c, d, e, f, g], "|")
         == a + "|" + (b + "|" + (c + "|" + (d + "|" + (e + "|" + (f + "|" + g)))))
  {
    hide Join;
    JoinOne(g);
    JoinCons(f, [g]);
    JoinCons(e, [f, g]);
    JoinCons(d, [e, f, g]);
    JoinCons(c, [d, e, f, g]);
    JoinCons(b, [c, d, e, f, g]);
    JoinCons(a, [b, c, d, e, f, g]);
    assert [f] + [g] == [f, g] && [e] + [f, g] == [e, f, g] && [d] + [e, f, g] == [d, e, f, g];
    assert [c] + [d, e, f, g] == [c, d, e, f, g] && [b] + [c, d, e, f, g] == [b, c, d, e, f, g];
    assert [a] + [b, c, d, e, f, g] == [a, b, c, d, e, f, g];
  }

  lemma JoinOne(x: string)
    ensures Join([x], "|") == x
  {
  }

  lemma IdTextIs(e: Event)
    ensures IdText(e) == Fold(e.tenantId) + "|" + (Fold(e.sourceService) + "|" + (Fold(e.entityType) + "|" + (Tail(e) + "|" + "0")))
  {
    hide Trim, Lower, Join;
    EntityTypeIsFolded(e);
    JoinSeven(Lower(Trim(e.tenantId)), Lower(Trim(e.sourceService)), Lower(Trim(e.entityType)), Trim(e.entityId),
              EntitySourceType(e), Trim(e.contentVersion), "0");
    Regroup(Trim(e.entityId), EntitySourceType(e), Trim(e.contentVersion), "0");
    assert Decimal(0) == "0";
  }

  lemma EntityTypeIsFolded(e: Event)
    ensures Fold(EntitySourceType(e)) == EntitySourceType(e)
  {
    FoldTwice(e.entityType);
    SmallLetters("vector_event_summary");
  }

  lemma SmallLetters(s: string)
    requires Trimmed(s) && forall i :: 0 <= i < |s| ==> LowerChar(s[i]) == s[i]
    ensures Fold(s) == s
  {
    TrimIsTrimmed(s);
  }

  // Plain requests have the same id text exactly when tenant, service and type are
  // the same and entity id, type and version run together to the same text.
  lemma SameIdTextIff(e: Event, e': Event)
    requires Plain(e) && Plain(e')
    ensures IdText(e) == IdText(e') <==>
            && Fold(e.tenantId) == Fold(e'.tenantId) && Fold(e.sourceService) == Fold(e'.sourceService)
            && Fold(e.entityType) == Fold(e'.entityType) && Tail(e) == Tail(e')
  {
    hide Fold, Tail, IdText;
    IdTextIs(e);
    IdTextIs(e');
    UuidHasNoBar(Fold(e.tenantId));
    UuidHasNoBar(Fold(e'.tenantId));
    if IdText(e) == IdText(e') {
      var x, x' := Tail(e) + "|" + "0", Tail(e') + "|" + "0";
      var y, y' := Fold(e.entityType) + "|" + x, Fold(e'.entityType) + "|" + x';
      FirstPart(Fold(e.tenantId), Fold(e'.tenantId), Fold(e.sourceService) + "|" + y, Fold(e'.sourceService) + "|" + y');
      FirstPart(Fold(e.sourceService), Fold(e'.sourceService), y, y');
      FirstPart(Fold(e.entityType), Fold(e'.entityType), x, x');
      assert x[..|x| - 2] == Tail(e) && x'[..|x'| - 2] == Tail(e');
    }
  }

  // The tail can also be read with an entity id of this length: the separator
  // stands there as well, between trimmed texts.
  predicate SplitsAt(tail: string, separator: string, at: nat) {
    && 0 < at && at + |separator| <= |tail| && tail[at..at + |separator|] == separator
    && Trimmed(tail[..at]) && Trimmed(tail[at + |separator|..])
  }

  // The request for the other reading.
  function ReadAt(e: Event, at: nat): Event
    requires SplitsAt(Tail(e), Separator(e), at)
  {
    e.(entityId := Tail(e)[..at], contentVersion := Tail(e)[at + |Separator(e)|..])
  }

  lemma ReadAtShares(e: Event, at: nat)
    requires Plain(e) && SplitsAt(Tail(e), Separator(e), at) && at != |Trim(e.entityId)|
    ensures Plain(ReadAt(e, at)) && IdText(ReadAt(e, at)) == IdText(e) && SubjectOf(ReadAt(e, at)) != SubjectOf(e)
  {
    hide Trim, IdText, Lower, IsUuidText;
    var other := ReadAt(e, at);
    TrimIsTrimmed(other.entityId);
    TrimIsTrimmed(other.contentVersion);
    assert Tail(e) == other.entityId + Separator(e) + other.contentVersion;
    SameIdTextIff(e, other);
  }

  // Another plain request has the same id text though it is about something else.
  ghost predicate SharesPlainly(e: Event) {
    exists other :: Plain(other) && SubjectOf(other) != SubjectOf(e) && IdText(other) == IdText(e)
  }

  // A plain request shares its id text with a plain one exactly when the text of its entity id, type
  // and version, run together, contains the separator a second time in a place
  // that leaves trimmed texts on both sides.
  lemma PlainSharesIff(e: Event)
    requires Plain(e)
    ensures SharesPlainly(e) <==> exists at: nat :: at != |Trim(e.entityId)| && SplitsAt(Tail(e), Separator(e), at)
  {
    hide Trim, IdText, Lower, IsUuidText, Trimmed;
    if at: nat :| at != |Trim(e.entityId)| && SplitsAt(Tail(e), Separator(e), at) {
      ReadAtShares(e, at);
    }
    if SharesPlainly(e) {
      var other :| Plain(other) && SubjectOf(other) != SubjectOf(e) && IdText(other) == IdText(e);
      OtherSplits(e, other);
    }
  }

  lemma OtherSplits(e: Event, other: Event)
    requires Plain(e) && Plain(other) && SubjectOf(other) != SubjectOf(e) && IdText(other) == IdText(e)
    ensures |Trim(other.entityId)| != |Trim(e.entityId)| && SplitsAt(Tail(e), Separator(e), |Trim(other.entityId)|)
  {
    hide Trim, IdText, Lower, IsUuidText, Trimmed;
    SameIdTextIff(e, other);
    var id, sep, version := Trim(other.entityId), Separator(other), Trim(other.contentVersion);
    TrimIsTrimmed(other.entityId);
    TrimIsTrimmed(other.contentVersion);
    assert Tail(e) == id + sep + version && sep == Separator(e);
    assert Tail(e)[..|id|] == id && Tail(e)[|id| + |sep|..] == version;
    var own := |Trim(e.entityId)|;
    assert Tail(e)[..own] == Trim(e.entityId) && Tail(e)[own + |sep|..] == Trim(e.contentVersion);
  }

  // ---- ... among all requests the consumer accepts ---------------------------------------

  // What names a request within its tenant.
  datatype Naming = Naming(service: string, entityType: string, id: string, version: string)

  function NamingOf(e: Event): Naming {
    Naming(Fold(e.sourceService), Fold(e.entityType), Trim(e.entityId), Trim(e.contentVersion))
  }

  // The id text between tenant and position.
  function Spelled(n: Naming): string {
    n.service + "|" + (n.entityType + "|" + (n.id + ("|" + n.entityType + "|") + n.version))
  }

  // Parts that a request the consumer accepts can have.
  predicate Possible(n: Naming) {
    && n.service != "" && Fold(n.service) == n.service && n.entityType != "" && Fold(n.entityType) == n.entityType
    && n.id != "" && Trim(n.id) == n.id && Trim(n.version) == n.version
  }

  lemma FoldedLength(s: string)
    ensures |Fold(s)| == |Trim(s)|
  {
  }

  lemma FoldedUuid(s: string)
    requires IsUuidText(s)
    ensures NoBar(Lower(s))
  {
    UuidHasNoBar(s);
  }

  lemma AcceptedFacts(e: Event)
    requires IndexConsumer.IsValid(e)
    ensures NoBar(Fold(e.tenantId)) && Possible(NamingOf(e)) && EntitySourceType(e) == Fold(e.entityType)
  {
    hide Trim, Lower, IsUuidText;
    FoldedUuid(Trim(e.tenantId));
    FoldedLength(e.sourceService);
    FoldedLength(e.entityType);
    FoldTwice(e.sourceService);
    FoldTwice(e.entityType);
    TrimIsTrimmed(e.entityId);
    TrimIsTrimmed(e.contentVersion);
  }

  lemma AcceptedIdText(e: Event)
    requires IndexConsumer.IsValid(e)
    ensures IdText(e) == Fold(e.tenantId) + "|" + (Spelled(NamingOf(e)) + "|0")
  {
    hide Trim, Lower, IsUuidText, IdText, IndexConsumer.IsValid;
    AcceptedFacts(e);
    IdTextIs(e);
    var n := NamingOf(e);
    assert n.service + "|" + (n.entityType + "|" + (Tail(e) + "|" + "0")) == Spelled(n) + "|0";
  }

  // Requests the consumer accepts have the same id text exactly when they are of one
  // tenant and their service, type, entity id, type and version run together to the
  // same text.
  lemma SameIdTextAcceptedIff(e: Event, o: Event)
    requires IndexConsumer.IsValid(e) && IndexConsumer.IsValid(o)
    ensures IdText(e) == IdText(o) <==>
            Fold(e.tenantId) == Fold(o.tenantId) && Spelled(NamingOf(e)) == Spelled(NamingOf(o))
  {
    hide Fold, IdText, Spelled, IndexConsumer.IsValid, NoBar;
    AcceptedFacts(e);
    AcceptedFacts(o);
    AcceptedIdText(e);
    AcceptedIdText(o);
    var x, y := Spelled(NamingOf(e)), Spelled(NamingOf(o));
    if IdText(e) == IdText(o) {
      FirstPart(Fold(e.tenantId), Fold(o.tenantId), x + "|0", y + "|0");
      assert (x + "|0")[..|x|] == x && (y + "|0")[..|y|] == y;
      assert |x + "|0"| == |x| + 2 && |y + "|0"| == |y| + 2;
    }
  }

  // Another accepted request has the same id text though it is about something else.
  ghost predicate Shares(e: Event) {
    exists o :: IndexConsumer.IsValid(o) && SubjectOf(o) != SubjectOf(e) && IdText(o) == IdText(e)
  }

  function Renamed(e: Event, n: Naming): Event {
    e.(sourceService := n.service, entityType := n.entityType, entityId := n.id, contentVersion := n.version)
  }

  lemma RenamedIsAccepted(e: Event, n: Naming)
    requires IndexConsumer.IsValid(e) && Possible(n)
    ensures IndexConsumer.IsValid(Renamed(e, n)) && NamingOf(Renamed(e, n)) == n
  {
    hide Trim, Lower, IsUuidText;
    FoldedLength(n.service);
    FoldedLength(n.entityType);
  }

  // An accepted request shares its id text with another one exactly when that text
  // can be read in another way.
  lemma SharesIff(e: Event)
    requires IndexConsumer.IsValid(e)
    ensures Shares(e) <==> exists n :: n != NamingOf(e) && Possible(n) && Spelled(n) == Spelled(NamingOf(e))
  {
    hide Fold, IdText, Spelled, IndexConsumer.IsValid, Possible, Trim;
    if n :| n != NamingOf(e) && Possible(n) && Spelled(n) == Spelled(NamingOf(e)) {
      RenamedIsAccepted(e, n);
      SameIdTextAcceptedIff(Renamed(e, n), e);
      assert SubjectOf(Renamed(e, n)) != SubjectOf(e);
    }
    if Shares(e) {
      var o :| IndexConsumer.IsValid(o) && SubjectOf(o) != SubjectOf(e) && IdText(o) == IdText(e);
      SameIdTextAcceptedIff(o, e);
      AcceptedFacts(o);
      assert NamingOf(o) != NamingOf(e);
    }
  }

  // A request without a bar in its service and type that shares its id text, but
  // only with requests that have one.
  const BARE := Naming("s", "t", "a", "a|z")
  const BARRED := Naming("s|t", "a", "t", "z")

  lemma NamedInSmall(n: Naming)
    requires n == BARE || n == BARRED
    ensures Possible(n)
  {
    SmallLetters("s");
    SmallLetters("t");
    SmallLetters("a");
    SmallLetters("s|t");
    TrimIsTrimmed("a");
    TrimIsTrimmed("t");
    TrimIsTrimmed("z");
    TrimIsTrimmed("a|z");
  }

  lemma SharesOnlyWithBars(e: Event)
    requires IndexConsumer.IsValid(e)
    ensures var x, y := Renamed(e, BARE), Renamed(e, BARRED);
            && IndexConsumer.IsValid(x) && IndexConsumer.IsValid(y)
            && Plain(x) && !SharesPlainly(x)
            && IdText(x) == IdText(y) && SubjectOf(x) != SubjectOf(y)
  {
    hide Fold, IdText, IndexConsumer.IsValid, Trim, Plain, SharesPlainly, Possible, Spelled;
    var x, y := Renamed(e, BARE), Renamed(e, BARRED);
    NamedInSmall(BARE);
    NamedInSmall(BARRED);
    RenamedIsAccepted(e, BARE);
    RenamedIsAccepted(e, BARRED);
    SpelledAlike();
    SameIdTextAcceptedIff(x, y);
    BareIsPlain(e);
    BareHasOneReading(x);
    assert NamingOf(x) != NamingOf(y);
  }

  lemma SpelledAlike()
    ensures Spelled(BARE) == Spelled(BARRED)
  {
    assert Spelled(BARE) == "s|t|a|t|a|z" == Spelled(BARRED);
  }

  lemma BareHasOneReading(x: Event)
    requires Plain(x) && NamingOf(x) == BARE
    ensures !SharesPlainly(x)
  {
    hide IdText, Trim, Lower, Plain, SharesPlainly, SplitsAt;
    PlainSharesIff(x);
    assert Fold(x.entityType) == "t";
    assert EntitySourceType(x) == "t" && Trim(x.entityId) == "a" && Trim(x.contentVersion) == "a|z";
    assert Tail(x) == "a|t|a|z" && Separator(x) == "|t|";
    forall at: nat | at != 1 ensures !SplitsAt("a|t|a|z", "|t|", at) {
      OneSeparator(at);
    }
  }

  lemma BareIsPlain(e: Event)
    requires IndexConsumer.IsValid(e)
    ensures Plain(Renamed(e, BARE))
  {
    SmallLetters("s");
    SmallLetters("t");
    TrimIsTrimmed("a");
    LowerUuid(Trim(e.tenantId));
  }

  lemma LowerUuid(s: string)
    requires IsUuidText(s)
    ensures IsUuidText(Lower(s))
  {
    assert forall c: char :: LowerChar(LowerChar(c)) == LowerChar(c);
    assert forall i :: 0 <= i < |s| ==> Lower(s)[i] == LowerChar(s[i]);
  }

  lemma OneSeparator(at: nat)
    requires at != 1
    ensures !SplitsAt("a|t|a|z", "|t|", at)
  {
    var text := "a|t|a|z";
    if at + 3 <= |text| && text[at..at + 3] == "|t|" {
      assert text[at] == text[at..at + 3][0] && text[at + 1] == text[at..at + 3][1];
    }
  }

  // ---- Versions -------------------------------------------------------------------------

  // Under a collision-free hash a new version of an entity gets a new id.
  lemma NewVersionNewId(c: Config, e: Event, version: string)
    requires forall x, y :: c.sha(x) == c.sha(y) ==> x == y
    requires Trim(version) != Trim(e.contentVersion)
    ensures var e' := e.(contentVersion := version);
            StableEventVectorID(c, e', EntitySourceType(e'), 0) != StableEventVectorID(c, e, EntitySourceType(e), 0)
  {
    hide Trim, Lower, VectorIdText;
    var e' := e.(contentVersion := version);
    IdTextIs(e);
    IdTextIs(e');
    var front := Fold(e.tenantId) + "|" + (Fold(e.sourceService) + "|" + (Fold(e.entityType) + "|" + Trim(e.entityId) + Separator(e)));
    assert IdText(e) == front + Trim(e.contentVersion) + "|0" && IdText(e') == front + Trim(version) + "|0";
    SameInside(front, Trim(e.contentVersion), Trim(version), "|0");
    SameAfterPrefix(c.sha(IdText(e)), c.sha(IdText(e')));
  }

  lemma SameInside(front: string, x: string, y: string, back: string)
    ensures front + x + back == front + y + back ==> x == y
  {
    if front + x + back == front + y + back {
      assert (front + x + back)[|front|..|front| + |x|] == x && (front + y + back)[|front|..|front| + |y|] == y;
    }
  }

  lemma SameAfterPrefix(x: string, y: string)
    ensures "zord_" + x == "zord_" + y ==> x == y
  {
    assert ("zord_" + x)[5..] == x && ("zord_" + y)[5..] == y;
  }

  lemma WritesItsOwnId(c: Config, t: Tables, r: Request, id: string, v: Vector)
    ensures Writes(c, t, r, id, v) ==> id == StableEventVectorID(c, r.e, EntitySourceType(r.e), 0)
  {
    hide Trim, Lower, IsUuidText, Documents, DocumentText, Puts, StableEventVectorID;
    if Writes(c, t, r, id, v) {
      DocumentsAre(r.e, r.chunks.value);
      assert Documents(r.e, r.chunks.value)[0] in Documents(r.e, r.chunks.value);
    }
  }

  // ... so indexing a new version leaves the vector of the old one where it is; only a
  // deletion of the entity takes it away.
  lemma OldVersionsStay(c: Config, t: Tables, r: Request, earlier: Event, v: Vector)
    requires forall x, y :: c.sha(x) == c.sha(y) ==> x == y
    requires Trim(r.e.operation) == "upsert"
    requires r.e == earlier.(contentVersion := r.e.contentVersion) && Trim(r.e.contentVersion) != Trim(earlier.contentVersion)
    requires HoldsVector(t, StableEventVectorID(c, earlier, EntitySourceType(earlier), 0), v)
    ensures HoldsVector(Handled(c, t, r.e, r.chunks, r.f, r.now).0, StableEventVectorID(c, earlier, EntitySourceType(earlier), 0), v)
  {
    hide Trim, Lower, IsUuidText, Documents, DocumentText, Puts, EntitySourceType, StableEventVectorID, HoldsVector;
    var id := StableEventVectorID(c, earlier, EntitySourceType(earlier), 0);
    NewVersionNewId(c, earlier, r.e.contentVersion);
    HandledIndex(c, t, r, id, v);
    forall w ensures !Writes(c, t, r, id, w) {
      WritesItsOwnId(c, t, r, id, w);
    }
  }

  // Two entities of one type that share their vector id.
  lemma BarsConfuseIds(c: Config, e: Event)
    ensures var x := e.(entityType := "t", entityId := "a", contentVersion := "b|t|c");
            var y := e.(entityType := "t", entityId := "a|t|b", contentVersion := "c");
            && StableEventVectorID(c, x, EntitySourceType(x), 0) == StableEventVectorID(c, y, EntitySourceType(y), 0)
            && SubjectOf(x).id != SubjectOf(y).id
  {
    var x := e.(entityType := "t", entityId := "a", contentVersion := "b|t|c");
    var y := e.(entityType := "t", entityId := "a|t|b", contentVersion := "c");
    PlainStrings();
    IdTextIs(x);
    IdTextIs(y);
    assert EntitySourceType(x) == "t" && EntitySourceType(y) == "t";
    assert Tail(x) == "a|t|b|t|c" && Tail(y) == "a|t|b|t|c";
  }

  lemma PlainStrings()
    ensures Trim("a") == "a" && Trim("a|t|b") == "a|t|b" && Trim("c") == "c" && Trim("b|t|c") == "b|t|c"
    ensures Fold("t") == "t"
  {
    TrimIsTrimmed("a");
    TrimIsTrimmed("a|t|b");
    TrimIsTrimmed("c");
    TrimIsTrimmed("b|t|c");
    TrimIsTrimmed("t");
  }

  // ---- Rows remember their id ----------------------------------------------------------

  // The request rebuilt from a row has the row's vector id.
  ghost predicate NamesItsId(c: Config, id: string, row: StateRow) {
    var e := RetryEvent(row);
    id == StableEventVectorID(c, e, EntitySourceType(e), 0)
  }

  ghost predicate RowsNameIds(c: Config, state: map<string, StateRow>) {
    forall id <- state :: NamesItsId(c, id, state[id])
  }

  // Only what the id text is made of counts.
  lemma SameFieldsSameId(c: Config, id: string, row: StateRow, row': StateRow)
    requires NamesItsId(c, id, row)
    requires row'.tenantId == row.tenantId && row'.sourceService == row.sourceService && row'.entityType == row.entityType
    requires row'.entityId == row.entityId && row'.contentVersion == row.contentVersion
    ensures NamesItsId(c, id, row')
  {
    var e, e' := RetryEvent(row), RetryEvent(row');
    assert EntitySourceType(e) == EntitySourceType(e');
  }

  // The row made for a document of a request leads back to the request's id.
  lemma PreparedNamesItsId(c: Config, e: Event, d: Doc)
    requires d.sourceType == EntitySourceType(e)
    ensures var p := Prepare(c, e, d, 0); NamesItsId(c, p.id, p.row)
  {
    hide Trim, Lower, Join;
    var p := Prepare(c, e, d, 0);
    var e' := RetryEvent(p.row);
    FoldTwice(e.tenantId);
    FoldTwice(e.sourceService);
    FoldTwice(e.entityType);
    TrimIsTrimmed(e.entityId);
    TrimIsTrimmed(e.contentVersion);
    assert EntitySourceType(e') == EntitySourceType(e);
  }

  lemma MarkKeepsNames(c: Config, state: map<string, StateRow>, p: Prepared, outcome: Call, now: int)
    requires RowsNameIds(c, state) && NamesItsId(c, p.id, p.row)
    ensures RowsNameIds(c, Mark(state, p, outcome, now))
  {
    hide NamesItsId;
    var s := Mark(state, p, outcome, now);
    forall id <- s ensures NamesItsId(c, id, s[id]) {
      if id == p.id {
        SameFieldsSameId(c, id, if p.id in state && !outcome.Ok? then state[id] else p.row, s[id]);
      }
    }
  }

  lemma OneDocumentKeepsNames(c: Config, t: Tables, p: Prepared, f: Faults, now: int)
    requires RowsNameIds(c, t.state) && NamesItsId(c, p.id, p.row) && p.position == 0
    ensures RowsNameIds(c, UpsertedPlan(c, t, [Some(p)], f, now).0.state)
  {
    hide NamesItsId;
    var plan := [Some(p)];
    MarkKeepsNames(c, t.state, p, f.embed(0), now);
    MarkKeepsNames(c, t.state, p, f.upsert, now);
    assert EmbedFrom(c, t.state, plan, 1, [], f, now) == Embedding(t.state, [], Ok);
    assert EmbedFrom(c, t.state, plan, 1, [p], f, now) == Embedding(t.state, [p], Ok);
    assert [] + [p] == [p] && [p][..0] == [];
    assert MarkAll(t.state, [], f.upsert, f, now) == t.state;
    assert MarkAll(t.state, [p], f.upsert, f, now) == if f.writeLost(0) then t.state else Mark(t.state, p, f.upsert, now);
    assert plan[0] == Some(p);
  }

  lemma HandlingKeepsNames(c: Config, t: Tables, r: Request)
    requires RowsNameIds(c, t.state)
    ensures RowsNameIds(c, Handled(c, t, r.e, r.chunks, r.f, r.now).0.state)
  {
    hide NamesItsId, IsUuidText, Trim, Lower, Documents, DocumentText, EntitySourceType, Prepare;
    if r.chunks.Some? {
      var docs := Documents(r.e, r.chunks.value);
      DocumentsAre(r.e, r.chunks.value);
      if docs == [] {
        assert Plan(c, r.e, docs) == [];
      } else {
        assert docs[0] in docs;
        var p := Prepare(c, r.e, docs[0], 0);
        PreparedPosition(c, r.e, docs[0]);
        PreparedNamesItsId(c, r.e, docs[0]);
        OneDocumentKeepsNames(c, t, p, r.f, r.now);
        assert Plan(c, r.e, docs) == [Some(p)];
      }
    }
  }

  lemma PreparedPosition(c: Config, e: Event, d: Doc)
    ensures Prepare(c, e, d, 0).position == 0
  {
  }

  // In every run, whatever fails, the request that a retry rebuilds from a row is
  // for that very row: it has the row's vector id.
  lemma {:induction false} RetriesNameTheirRow(c: Config, requests: seq<Request>, id: string)
    requires id in After(c, requests).state
    ensures var e := RetryEvent(After(c, requests).state[id]);
            id == StableEventVectorID(c, e, EntitySourceType(e), 0)
  {
    AllRowsNameIds(c, requests);
    assert NamesItsId(c, id, After(c, requests).state[id]);
  }

  lemma {:induction false} AllRowsNameIds(c: Config, requests: seq<Request>)
    ensures RowsNameIds(c, After(c, requests).state)
  {
    if requests != [] {
      var n := |requests| - 1;
      AllRowsNameIds(c, requests[..n]);
      HandlingKeepsNames(c, After(c, requests[..n]), requests[n]);
    }
  }

  // ---- Retries and their documents -----------------------------------------------------

  // The request a retry rebuilds from the row of a request.
  function RebuiltFrom(c: Config, e: Event, d: Doc): Event {
    RetryEvent(Prepare(c, e, d, 0).row)
  }

  lemma RebuiltComesBack(c: Config, e: Event, d: Doc)
    ensures ComesBackAs(e, RebuiltFrom(c, e, d))
  {
    hide Trim, Lower, StableEventContentHash, StableEventVectorID;
    SafeTrimmed(e.sourceService);
    SafeTrimmed(e.entityId);
  }

  // The row keeps neither the batch nor the capitals of the type. A retry therefore
  // has the document first asked for exactly when there is none, or the heading of
  // the type shows no capitals and the request named no batch.
  lemma RetryHasSameDocumentIff(c: Config, e: Event, d: Doc, chunks: seq<Doc>)
    ensures Documents(RebuiltFrom(c, e, d), chunks) == Documents(e, chunks) <==>
            || !HasText(chunks)
            || (&& (SafeOptional(e.entityType) == SafeOptional(Fold(e.entityType))
                    || IsUnfilled(Trim("Entity type: " + SafeOptional(e.entityType))))
                && SafeOptional(e.batchId) == "Not available")
  {
    hide Documents, HasText, SafeOptional, Fold, Trim, IsUnfilled, RebuiltFrom;
    RebuiltComesBack(c, e, d);
    SameDocumentAgainIff(e, RebuiltFrom(c, e, d), chunks);
  }
}
