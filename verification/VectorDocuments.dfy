/**
  What the vector index is asked to hold: requests, the chunks a source service
  has to say about an entity, and the one document they are put together into.
 */
module VectorDocuments {
  import opened Text

  datatype Event = Event(
    eventId: string,
    eventType: string,
    sourceService: string,
    tenantId: string,
    entityType: string,
    entityId: string,
    operation: string,
    contentVersion: string,
    batchId: string)

  datatype Doc = Doc(sourceType: string, text: string)

  // ---- Chunks ------------------------------------------------------------------------

  // The chunks that have text, trimmed.
  function Sanitized(chunks: seq<Doc>): seq<Doc> {
    if chunks == [] then []
    else
      var last := chunks[|chunks| - 1];
      Sanitized(chunks[..|chunks| - 1]) + if Trim(last.text) == "" then [] else [last.(text := Trim(last.text))]
  }

  method SanitizeVectorIndexChunks(chunks: seq<Doc>) returns (safe: seq<Doc>)
    ensures safe == Sanitized(chunks)
  {
    safe := [];
    for i := 0 to |chunks|
      invariant safe == Sanitized(chunks[..i])
    {
      assert chunks[..i + 1][..i] == chunks[..i];
      var text := Trim(chunks[i].text);
      if text == "" {
        continue;
      }
      safe := safe + [chunks[i].(text := text)];
    }
    assert chunks[..|chunks|] == chunks;
  }

  // The source types of the chunks with text, each once.
  function SourceTypes(chunks: seq<Doc>): seq<string> {
    if chunks == [] then []
    else
      var before, last := SourceTypes(chunks[..|chunks| - 1]), chunks[|chunks| - 1];
      var source := Trim(last.sourceType);
      before + if Trim(last.text) != "" && source != "" && source !in before then [source] else []
  }

  // Their texts, each under its source type.
  function Sections(chunks: seq<Doc>): seq<string> {
    if chunks == [] then []
    else
      var last := chunks[|chunks| - 1];
      var source, text := Trim(last.sourceType), Trim(last.text);
      Sections(chunks[..|chunks| - 1])
      + if text == "" then [] else if source != "" then ["[" + source + "] " + text] else [text]
  }

  function SafeOptional(raw: string): string {
    var v := Trim(raw);
    if v == "" || v == "-" || Lower(v) == "null" || Lower(v) == "<nil>" then "Not available" else v
  }

  predicate IsUnfilled(part: string) {
    part == "" || HasSuffix(part, ": -") || HasSuffix(part, ":")
  }

  function NonEmptyParts(parts: seq<string>): seq<string> {
    if parts == [] then []
    else (if IsUnfilled(Trim(parts[0])) then [] else [Trim(parts[0])]) + NonEmptyParts(parts[1..])
  }

  // ---- The document --------------------------------------------------------------------

  // The source type of the document of an entity: the entity's own type.
  function EntitySourceType(e: Event): string {
    if Fold(e.entityType) == "" then "vector_event_summary" else Fold(e.entityType)
  }

  const TITLE := "Business vector summary"

  function Headings(e: Event, sources: seq<string>): seq<string> {
    [ TITLE,
      "Source service: " + SafeOptional(e.sourceService),
      "Entity type: " + SafeOptional(e.entityType),
      "Entity reference: " + SafeOptional(e.entityId),
      "Batch reference: " + SafeOptional(e.batchId),
      "Included source sections: " + SafeOptional(Join(sources, ", ")) ]
  }

  function Summary(e: Event, sources: seq<string>, sections: seq<string>): string {
    Join(NonEmptyParts(Headings(e, sources) + [Join(sections, " | ")]), " . ")
  }

  function Compacted(e: Event, chunks: seq<Doc>): seq<Doc> {
    if Sections(chunks) == [] then []
    else [Doc(EntitySourceType(e), Summary(e, SourceTypes(chunks), Sections(chunks)))]
  }

  method CompactVectorEventChunks(e: Event, chunks: seq<Doc>) returns (docs: seq<Doc>)
    ensures docs == Compacted(e, chunks)
  {
    hide Trim;
    var safeParts, sourceTypes: seq<string> := [], [];
    var seenSource: set<string> := {};
    for i := 0 to |chunks|
      invariant safeParts == Sections(chunks[..i]) && sourceTypes == SourceTypes(chunks[..i])
      invariant forall s :: s in seenSource <==> s in sourceTypes
    {
      assert chunks[..i + 1][..i] == chunks[..i];
      var text := Trim(chunks[i].text);
      if text == "" {
        continue;
      }
      var source := Trim(chunks[i].sourceType);
      if source != "" && source !in seenSource {
        seenSource := seenSource + {source};
        sourceTypes := sourceTypes + [source];
      }
      if source != "" {
        safeParts := safeParts + ["[" + source + "] " + text];
      } else {
        safeParts := safeParts + [text];
      }
    }
    assert chunks[..|chunks|] == chunks;
    if |safeParts| == 0 {
      return [];
    }
    docs := [Doc(EntitySourceType(e), Summary(e, sourceTypes, safeParts))];
  }

  function DocumentText(d: Doc): string {
    var source, text := Trim(d.sourceType), Trim(d.text);
    if text == "" then "" else if source == "" then text else "Source: " + source + "\n" + text
  }

  // The documents an upsert request works on.
  function Documents(e: Event, chunks: seq<Doc>): seq<Doc> {
    Compacted(e, Sanitized(chunks))
  }

  // There is one document, of the entity's type and with text, exactly when some
  // chunk has text; otherwise there is none.
  lemma DocumentsAre(e: Event, chunks: seq<Doc>)
    ensures var docs := Documents(e, chunks);
            && |docs| == (if exists c <- chunks :: Trim(c.text) != "" then 1 else 0)
            && forall d <- docs :: d.sourceType == EntitySourceType(e) && DocumentText(d) != ""
  {
    SectionsAre(chunks);
    if Sections(Sanitized(chunks)) != [] {
      SummaryHasText(e, SourceTypes(Sanitized(chunks)), Sections(Sanitized(chunks)));
    }
  }

  lemma {:induction false} SectionsAre(chunks: seq<Doc>)
    ensures Sections(Sanitized(chunks)) == [] <==> forall c <- chunks :: Trim(c.text) == ""
  {
    hide Trim, Trimmed;
    if chunks != [] {
      var init, last := chunks[..|chunks| - 1], chunks[|chunks| - 1];
      SectionsAre(init);
      assert chunks == init + [last];
      if Trim(last.text) == "" {
        assert Sanitized(chunks) == Sanitized(init);
      } else {
        SectionsGrow(Sanitized(init), last);
        assert last in chunks;
      }
    }
  }

  lemma SectionsGrow(safe: seq<Doc>, last: Doc)
    requires Trim(last.text) != ""
    ensures Sections(safe + [last.(text := Trim(last.text))]) != []
  {
    TrimIsTrimmed(last.text);
    var all := safe + [last.(text := Trim(last.text))];
    assert all[..|all| - 1] == safe;
  }

  lemma SummaryHasText(e: Event, sources: seq<string>, sections: seq<string>)
    ensures Trim(Summary(e, sources, sections)) != ""
  {
    var first := "Business vector summary";
    TrimIsTrimmed(first);
    assert Trim(first) == first && !IsUnfilled(first);
    var text := Summary(e, sources, sections);
    assert text != "" && text[0] == 'B';
    TrimKeeps(text);
  }

  // ---- What shows in the document --------------------------------------------------------

  // What a part adds to the text after the first: nothing when it is unfilled.
  function Piece(part: string): string {
    if IsUnfilled(Trim(part)) then "" else " . " + Trim(part)
  }

  function Pieces(parts: seq<string>): string {
    if parts == [] then "" else Piece(parts[0]) + Pieces(parts[1..])
  }

  lemma JoinFirst(first: string, next: string, rest: seq<string>)
    ensures Join([first] + ([next] + rest), " . ") == first + (" . " + Join([next] + rest, " . "))
  {
    assert ([first] + ([next] + rest))[1..] == [next] + rest;
    assert first + " . " + Join([next] + rest, " . ") == first + (" . " + Join([next] + rest, " . "));
  }

  lemma {:induction false} JoinedPieces(first: string, parts: seq<string>)
    ensures Join([first] + NonEmptyParts(parts), " . ") == first + Pieces(parts)
    decreases |parts|
  {
    hide Trim, Join, IsUnfilled;
    if parts == [] {
      JoinSingle(first);
      assert [first] + [] == [first] && first + "" == first;
    } else {
      var rest, more := NonEmptyParts(parts[1..]), Pieces(parts[1..]);
      if IsUnfilled(Trim(parts[0])) {
        assert [] + rest == rest && "" + more == more;
        JoinedPieces(first, parts[1..]);
      } else {
        var next := Trim(parts[0]);
        JoinedPieces(next, parts[1..]);
        JoinFirst(first, next, rest);
        assert " . " + (next + more) == (" . " + next) + more;
      }
    }
  }

  lemma JoinSingle(x: string)
    ensures Join([x], " . ") == x
  {
  }

  function Content(sections: seq<string>): string {
    Trim(Join(sections, " | "))
  }

  // What the chunks leave in the text: their source types and their content.
  function Ending(chunks: seq<Doc>): string {
    Piece("Included source sections: " + SafeOptional(Join(SourceTypes(Sanitized(chunks)), ", ")))
    + Piece(Join(Sections(Sanitized(chunks)), " | "))
  }

  // What the request itself leaves in it.
  function Opening(e: Event): string {
    TITLE
    + (Piece("Source service: " + SafeOptional(e.sourceService))
    + (Piece("Entity type: " + SafeOptional(e.entityType))
    + (Piece("Entity reference: " + SafeOptional(e.entityId))
    + Piece("Batch reference: " + SafeOptional(e.batchId)))))
  }

  lemma SixPieces(a: string, b: string, c: string, d: string, e: string, f: string)
    ensures Pieces([a, b, c, d, e, f]) == Piece(a) + (Piece(b) + (Piece(c) + (Piece(d) + (Piece(e) + Piece(f)))))
  {
    hide Piece;
    assert [a, b, c, d, e, f][1..] == [b, c, d, e, f] && [b, c, d, e, f][1..] == [c, d, e, f];
    assert [c, d, e, f][1..] == [d, e, f] && [d, e, f][1..] == [e, f] && [e, f][1..] == [f] && [f][1..] == [];
    assert Pieces([f]) == Piece(f) + "" == Piece(f);
    assert Pieces([e, f]) == Piece(e) + Pieces([f]);
    assert Pieces([d, e, f]) == Piece(d) + Pieces([e, f]);
    assert Pieces([c, d, e, f]) == Piece(c) + Pieces([d, e, f]);
    assert Pieces([b, c, d, e, f]) == Piece(b) + Pieces([c, d, e, f]);
  }

  lemma TitleShows(parts: seq<string>)
    ensures NonEmptyParts([TITLE] + parts) == [TITLE] + NonEmptyParts(parts)
  {
    TrimIsTrimmed(TITLE);
    assert Trim(TITLE) == TITLE && !IsUnfilled(TITLE);
    assert ([TITLE] + parts)[1..] == parts;
  }

  lemma SplitSix(t: string, a: string, b: string, c: string, d: string, e: string, f: string)
    ensures t + (a + (b + (c + (d + (e + f))))) == (t + (a + (b + (c + d)))) + (e + f)
  {
  }

  lemma SummaryIs(e: Event, chunks: seq<Doc>)
    ensures Summary(e, SourceTypes(Sanitized(chunks)), Sections(Sanitized(chunks))) == Opening(e) + Ending(chunks)
  {
    hide Piece, NonEmptyParts, Join, SafeOptional, Trim, SourceTypes, Sections;
    var sources, body := SourceTypes(Sanitized(chunks)), Join(Sections(Sanitized(chunks)), " | ");
    var a, b := "Source service: " + SafeOptional(e.sourceService), "Entity type: " + SafeOptional(e.entityType);
    var c, d := "Entity reference: " + SafeOptional(e.entityId), "Batch reference: " + SafeOptional(e.batchId);
    var f := "Included source sections: " + SafeOptional(Join(sources, ", "));
    assert Headings(e, sources) + [body] == [TITLE] + [a, b, c, d, f, body];
    TitleShows([a, b, c, d, f, body]);
    JoinedPieces(TITLE, [a, b, c, d, f, body]);
    SixPieces(a, b, c, d, f, body);
    SplitSix(TITLE, Piece(a), Piece(b), Piece(c), Piece(d), Piece(f), Piece(body));
  }

  predicate HasText(chunks: seq<Doc>) {
    exists c <- chunks :: Trim(c.text) != ""
  }

  // The documents of a request, in these terms.
  lemma DocumentsShow(e: Event, chunks: seq<Doc>)
    ensures Documents(e, chunks) == if HasText(chunks) then [Doc(EntitySourceType(e), Opening(e) + Ending(chunks))] else []
  {
    hide Trim, Summary, Opening, Ending, EntitySourceType, Sections, Sanitized;
    SectionsAre(chunks);
    SummaryIs(e, chunks);
  }

  // Two answers of the source service give a request the same document exactly when
  // neither has text, or both have and leave the same behind.
  lemma SameDocumentIff(e: Event, x: seq<Doc>, y: seq<Doc>)
    ensures Documents(e, x) == Documents(e, y) <==> HasText(x) == HasText(y) && (HasText(x) ==> Ending(x) == Ending(y))
  {
    hide HasText, Ending, Opening, Documents;
    DocumentsShow(e, x);
    DocumentsShow(e, y);
    var a, b := Opening(e) + Ending(x), Opening(e) + Ending(y);
    assert a[|Opening(e)|..] == Ending(x) && b[|Opening(e)|..] == Ending(y);
  }

  // With the same source types: exactly when the contents are the same, or both end
  // in ":" or ": -" and are taken for unfilled headings.
  lemma ContentIsLostIff(e: Event, x: seq<Doc>, y: seq<Doc>)
    requires HasText(x) && HasText(y) && SourceTypes(Sanitized(x)) == SourceTypes(Sanitized(y))
    ensures var a, b := Content(Sections(Sanitized(x))), Content(Sections(Sanitized(y)));
            Documents(e, x) == Documents(e, y) <==> a == b || (IsUnfilled(a) && IsUnfilled(b))
  {
    hide HasText, Documents, SourceTypes, Sections, Sanitized, Trim, SafeOptional;
    SameDocumentIff(e, x, y);
    var source := Piece("Included source sections: " + SafeOptional(Join(SourceTypes(Sanitized(x)), ", ")));
    var p, q := Piece(Join(Sections(Sanitized(x)), " | ")), Piece(Join(Sections(Sanitized(y)), " | "));
    assert (source + p)[|source|..] == p && (source + q)[|source|..] == q;
    SamePieceIff(Join(Sections(Sanitized(x)), " | "), Join(Sections(Sanitized(y)), " | "));
  }

  lemma SamePieceIff(a: string, b: string)
    ensures Piece(a) == Piece(b) <==> Trim(a) == Trim(b) || (IsUnfilled(Trim(a)) && IsUnfilled(Trim(b)))
  {
    hide Trim;
    if !IsUnfilled(Trim(a)) && !IsUnfilled(Trim(b)) {
      assert Piece(a)[3..] == Trim(a) && Piece(b)[3..] == Trim(b);
    }
  }

  // Two answers that differ in what they say, and their one document.
  const FIVE := [Doc("s", "5:")]
  const SEVEN := [Doc("s", "7:")]

  lemma OneChunk(text: string)
    requires Trimmed(text) && text != ""
    ensures var chunks := [Doc("s", text)];
            HasText(chunks) && Sanitized(chunks) == chunks && SourceTypes(chunks) == ["s"]
            && Sections(chunks) == ["[s] " + text] && Content(Sections(chunks)) == "[s] " + text
  {
    TrimIsTrimmed(text);
    TrimIsTrimmed("s");
    OneSection(text);
    OneContent(text);
  }

  lemma OneSection(text: string)
    requires Trim(text) == text != "" && Trim("s") == "s"
    ensures var chunks := [Doc("s", text)];
            HasText(chunks) && Sanitized(chunks) == chunks && SourceTypes(chunks) == ["s"] && Sections(chunks) == ["[s] " + text]
  {
    hide Trim;
    var chunks := [Doc("s", text)];
    assert chunks[0] in chunks && chunks[..0] == [];
    assert "[" + "s" + "] " + text == "[s] " + text;
  }

  lemma OneContent(text: string)
    requires Trimmed(text) && text != ""
    ensures Content(["[s] " + text]) == "[s] " + text
  {
    hide Trim;
    var section := "[s] " + text;
    assert section[0] == '[' && section[|section| - 1] == text[|text| - 1];
    TrimIsTrimmed(section);
  }

  lemma ContentEndingInColonIsLost(e: Event)
    ensures FIVE != SEVEN && Documents(e, FIVE) == Documents(e, SEVEN) && Documents(e, FIVE) != []
  {
    hide Documents, SourceTypes, Sections, Sanitized, Trim, HasText, Content;
    OneChunk("5:");
    OneChunk("7:");
    assert HasSuffix("[s] " + "5:", ":") && HasSuffix("[s] " + "7:", ":");
    ContentIsLostIff(e, FIVE, SEVEN);
    DocumentsShow(e, FIVE);
  }

  // ---- Retries see another document -------------------------------------------------------

  lemma SafeTrimmed(s: string)
    ensures Trimmed(SafeOptional(s)) && SafeOptional(s) != "" && SafeOptional(Trim(s)) == SafeOptional(s)
  {
    TrimIsTrimmed(s);
  }

  lemma {:induction false} LowerKeepsSuffix(s: string, p: string)
    requires forall i :: 0 <= i < |p| ==> p[i] == ':' || p[i] == ' ' || p[i] == '-'
    ensures HasSuffix(Lower(s), p) <==> HasSuffix(s, p)
  {
    if |p| <= |s| {
      var n := |s| - |p|;
      assert forall i :: 0 <= i < |p| ==> Lower(s)[n..][i] == LowerChar(s[n + i]) && s[n..][i] == s[n + i];
    }
  }

  // A heading with a trimmed value shows as it is, or not at all.
  lemma HeadingShows(heading: string, value: string)
    requires heading != "" && !IsSpace(heading[0]) && Trimmed(value) && value != ""
    ensures Trim(heading + value) == heading + value
  {
    TrimIsTrimmed(heading + value);
  }

  // Two headings with the same capital and small letters but for the case.
  lemma CaseOfHeadings(heading: string, a: string, b: string)
    requires heading != "" && !IsSpace(heading[0]) && a != "" && b != "" && Trimmed(a) && Trimmed(b)
    requires a == b || b == Lower(a)
    ensures |Piece(heading + a)| == |Piece(heading + b)|
    ensures Piece(heading + a) == Piece(heading + b) <==> a == b || IsUnfilled(Trim(heading + a))
  {
    hide Trim, Trimmed;
    HeadingShows(heading, a);
    HeadingShows(heading, b);
    SamePieceIff(heading + a, heading + b);
    var x, y := heading + a, heading + b;
    assert x[|heading|..] == a && y[|heading|..] == b;
    if a != b {
      assert Lower(x) == Lower(y);
      SameSuffixes(x, y);
    }
  }

  // Lower case changes neither the length of the type's heading nor whether it shows.
  lemma TypeHeadings(e: Event)
    ensures var a, b := SafeOptional(e.entityType), SafeOptional(Fold(e.entityType));
            && |Piece("Entity type: " + a)| == |Piece("Entity type: " + b)|
            && (Piece("Entity type: " + a) == Piece("Entity type: " + b)
                <==> a == b || IsUnfilled(Trim("Entity type: " + a)))
  {
    hide Trim, Trimmed, SafeOptional, Piece, Fold;
    SafeTrimmed(e.entityType);
    SafeTrimmed(Fold(e.entityType));
    LowerOfSafe(e.entityType);
    CaseOfHeadings("Entity type: ", SafeOptional(e.entityType), SafeOptional(Fold(e.entityType)));
  }

  lemma LowerOfSafe(s: string)
    ensures SafeOptional(Fold(s)) == SafeOptional(s) || SafeOptional(Fold(s)) == Lower(SafeOptional(s))
  {
    FoldTwice(s);
    assert Lower(Lower(Trim(s))) == Lower(Trim(s));
  }

  lemma SameSuffixes(x: string, y: string)
    requires |x| == |y| && x != "" && Lower(x) == Lower(y)
    ensures IsUnfilled(x) == IsUnfilled(y)
  {
    LowerKeepsSuffix(x, ":");
    LowerKeepsSuffix(y, ":");
    LowerKeepsSuffix(x, ": -");
    LowerKeepsSuffix(y, ": -");
  }

  lemma BatchHeadings(batchId: string)
    ensures Piece("Batch reference: " + SafeOptional(batchId)) == Piece("Batch reference: " + SafeOptional(""))
            <==> SafeOptional(batchId) == "Not available"
  {
    var a, none := SafeOptional(batchId), "Not available";
    SafeTrimmed(batchId);
    assert SafeOptional("") == none;
    HeadingShows("Batch reference: ", a);
    HeadingShows("Batch reference: ", none);
    SamePieceIff("Batch reference: " + a, "Batch reference: " + none);
    var x, y := "Batch reference: " + a, "Batch reference: " + none;
    assert x[17..] == a && y[17..] == none;
    assert y[|y| - 1] == 'e' && !IsUnfilled(y);
  }

  lemma Aligned(s: string, t: string, t': string, r: string, b: string, b': string, rest: string)
    requires |t| == |t'|
    ensures s + (t + (r + b)) + rest == s + (t' + (r + b')) + rest <==> t == t' && b == b'
  {
    var x, y := s + (t + (r + b)) + rest, s + (t' + (r + b')) + rest;
    if x == y {
      assert x[|s|..|s| + |t|] == t && y[|s|..|s| + |t|] == t';
      assert |b| == |b'|;
      var n := |s| + |t| + |r|;
      assert x[n..n + |b|] == b && y[n..n + |b|] == b';
    }
  }

  // The request as it comes back from the table: trimmed, the type in lower case and
  // without its batch.
  predicate ComesBackAs(e: Event, back: Event) {
    && SafeOptional(back.sourceService) == SafeOptional(e.sourceService) && back.entityType == Fold(e.entityType)
    && SafeOptional(back.entityId) == SafeOptional(e.entityId) && back.batchId == ""
  }

  // It gets the same document exactly when there is none, or the heading of the type
  // shows no capitals and the request names no batch.
  lemma SameDocumentAgainIff(e: Event, back: Event, chunks: seq<Doc>)
    requires ComesBackAs(e, back)
    ensures Documents(back, chunks) == Documents(e, chunks) <==>
            || !HasText(chunks)
            || (&& (SafeOptional(e.entityType) == SafeOptional(Fold(e.entityType))
                    || IsUnfilled(Trim("Entity type: " + SafeOptional(e.entityType))))
                && SafeOptional(e.batchId) == "Not available")
  {
    hide HasText, Ending, Documents, Piece, SafeOptional, Fold, Trim, IsUnfilled;
    DocumentsShow(e, chunks);
    DocumentsShow(back, chunks);
    FoldedSourceType(e, back);
    TypeHeadings(e);
    BatchHeadings(e.batchId);
    SameOpeningsIff(e, back, Ending(chunks));
  }

  lemma FoldedSourceType(e: Event, back: Event)
    requires back.entityType == Fold(e.entityType)
    ensures EntitySourceType(back) == EntitySourceType(e)
  {
    FoldTwice(e.entityType);
  }

  lemma SameOpeningsIff(e: Event, back: Event, rest: string)
    requires ComesBackAs(e, back)
    requires |Piece("Entity type: " + SafeOptional(e.entityType))| == |Piece("Entity type: " + SafeOptional(Fold(e.entityType)))|
    ensures Opening(back) + rest == Opening(e) + rest <==>
            && Piece("Entity type: " + SafeOptional(e.entityType)) == Piece("Entity type: " + SafeOptional(Fold(e.entityType)))
            && Piece("Batch reference: " + SafeOptional(e.batchId)) == Piece("Batch reference: " + SafeOptional(""))
  {
    hide Piece, SafeOptional, Fold;
    var s := Piece("Source service: " + SafeOptional(e.sourceService));
    var t, t' := Piece("Entity type: " + SafeOptional(e.entityType)), Piece("Entity type: " + SafeOptional(Fold(e.entityType)));
    var r := Piece("Entity reference: " + SafeOptional(e.entityId));
    var b, b' := Piece("Batch reference: " + SafeOptional(e.batchId)), Piece("Batch reference: " + SafeOptional(""));
    assert TITLE + (s + (t + (r + b))) == (TITLE + s) + (t + (r + b));
    assert TITLE + (s + (t' + (r + b'))) == (TITLE + s) + (t' + (r + b'));
    Aligned(TITLE + s, t, t', r, b, b', rest);
  }
}
