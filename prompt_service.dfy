/**
 * PromptService: prompts are versioned by soft deletion. An update retires
 * the stored prompt by stamping its deletion date and saves the new text as
 * a new prompt; the listings show only the prompts without a deletion date,
 * while a lookup by id still finds retired ones. The prompt types are a
 * lookup table from id to type, and `now` is the clock's reading.
 */
module PromptService {
  import opened Wrappers
  import opened Text
  import opened Persistence
  import opened PromptEntity
  import opened Sorting
  import Seqs

  /** PromptDto: the stored fields plus the deleted flag. */
  datatype PromptDto = PromptDto(
    id: int,
    name: string,
    text: string,
    promptType: PromptType,
    createdAt: Option<int>,
    updatedAt: Option<int>,
    deletedDate: Option<int>,
    deleted: bool)

  /** The fields of a create or update request. */
  datatype PromptRequest = PromptRequest(name: string, text: string, typeId: int)

  /** convertToDto */
  function ToDto(r: PromptRecord): PromptDto
  {
    PromptDto(r.id, r.name, r.text, r.promptType, r.createdAt, r.updatedAt, r.deletedDate, r.deletedDate.Some?)
  }

  function Dtos(rows: seq<PromptRecord>): seq<PromptDto>
  {
    seq(|rows|, i requires 0 <= i < |rows| => ToDto(rows[i]))
  }

  function PromptNotFound(id: int): Exception
  {
    ResourceNotFoundException("Prompt not found with id: " + IntToString(id))
  }

  function TypeNotFound(typeId: int): Exception
  {
    ResourceNotFoundException("PromptType not found with id: " + IntToString(typeId))
  }

  // ---------------------------------------------------------------------
  // Listings
  // ---------------------------------------------------------------------

  // ---------------------------------------------------------------------
  // LIKE patterns, as PostgreSQL reads them (escape character '\')
  // ---------------------------------------------------------------------

  /** One element of a LIKE pattern. */
  datatype LikeToken = AnyRun | AnyChar | Literal(c: char)

  /**
   * The tokens of a LIKE pattern: '%' stands for any run of characters,
   * '_' for any one character, and '\' makes the character after it
   * literal. A pattern ending in a lone '\' is rejected (None).
   */
  function LikeTokens(p: string): Option<seq<LikeToken>>
    decreases |p|
  {
    if p == [] then Some([])
    else if p[0] == '\\' then
      if |p| == 1 then None
      else match LikeTokens(p[2..])
        case None => None
        case Some(rest) => Some([Literal(p[1])] + rest)
    else
      match LikeTokens(p[1..])
      case None => None
      case Some(rest) => Some([TokenOf(p[0])] + rest)
  }

  /** The token an unescaped character stands for. */
  function TokenOf(c: char): LikeToken
  {
    if c == '%' then AnyRun else if c == '_' then AnyChar else Literal(c)
  }

  /** `s LIKE pattern`, on the pattern's tokens. */
  predicate LikeMatch(s: string, toks: seq<LikeToken>)
    decreases |toks| + |s|
  {
    if toks == [] then s == []
    else match toks[0]
      case AnyRun => LikeMatch(s, toks[1..]) || (s != [] && LikeMatch(s[1..], toks))
      case AnyChar => s != [] && LikeMatch(s[1..], toks[1..])
      case Literal(c) => s != [] && s[0] == c && LikeMatch(s[1..], toks[1..])
  }

  /** A character LIKE treats specially. */
  predicate IsLikeSpecial(c: char) { c == '%' || c == '_' || c == '\\' }

  /**
   * `LOWER(p.name) LIKE LOWER(CONCAT('%', :name, '%'))`: a null term makes
   * the pattern null, which matches nothing. Lower-casing leaves '%' as it
   * is, so the pattern is the lower-cased term between two '%'.
   */
  predicate NameLike(name: string, term: Option<string>)
  {
    term.Some? &&
    match LikeTokens("%" + Lower(term.value) + "%")
    case None => false
    case Some(toks) => LikeMatch(Lower(name), toks)
  }

  /** The selections of the listing queries; each also requires deletedDate IS NULL. */
  datatype Criterion =
    | AllActive                         // findAllActive
    | OfType(typeId: int)               // findAllActiveByType
    | NameContains(term: Option<string>) // findActiveByNameContaining

  predicate Matches(c: Criterion, r: PromptRecord)
  {
    Active(r) &&
    match c
    case AllActive => true
    case OfType(typeId) => r.promptType.id == typeId
    case NameContains(term) => NameLike(r.name, term)
  }

  function Selector(c: Criterion): PromptRecord -> bool
  {
    (r: PromptRecord) => Matches(c, r)
  }

  /** ORDER BY p.createdAt DESC: newest first, a missing time first (PostgreSQL puts NULLs first when descending). */
  predicate NewerFirst(a: PromptRecord, b: PromptRecord)
  {
    a.createdAt.None? || (b.createdAt.Some? && a.createdAt.value >= b.createdAt.value)
  }

  function Listing(rows: seq<PromptRecord>, c: Criterion): seq<PromptRecord>
  {
    SortBy(Seqs.Filter(rows, Selector(c)), NewerFirst)
  }

  /** getAllActivePrompts */
  function GetAllActivePrompts(rows: seq<PromptRecord>): seq<PromptDto>
  {
    Dtos(Listing(rows, AllActive))
  }

  /** getActivePromptsByType: an unknown type id raises. */
  function GetActivePromptsByType(rows: seq<PromptRecord>, types: map<int, PromptType>, typeId: int): Result<seq<PromptDto>>
  {
    if typeId !in types then Err(TypeNotFound(typeId))
    else Ok(Dtos(Listing(rows, OfType(typeId))))
  }

  /** searchActivePrompts: the active prompts whose name contains the term, ignoring case. */
  function SearchActivePrompts(rows: seq<PromptRecord>, name: Option<string>): seq<PromptDto>
  {
    Dtos(Listing(rows, NameContains(name)))
  }

  /** getPromptById: deleted prompts included. */
  function GetPromptById(rows: seq<PromptRecord>, id: int): Result<PromptDto>
  {
    match Find(rows, PromptIdOf, id)
    case None => Err(PromptNotFound(id))
    case Some(r) => Ok(ToDto(r))
  }

  /** A listing is ordered newest first and holds each selected row once per occurrence, and no other row. */
  lemma ListingRows(rows: seq<PromptRecord>, c: Criterion)
    ensures Ordered(Listing(rows, c), NewerFirst)
    ensures |Listing(rows, c)| == Seqs.Count(rows, Selector(c))
    ensures forall x :: x in Listing(rows, c) <==> x in rows && Matches(c, x)
  {
    var f := Seqs.Filter(rows, Selector(c));
    assert Total(NewerFirst);
    SortByOrdered(f, NewerFirst);
    Seqs.CountIsFilterLength(rows, Selector(c));
  }

  /** The records of a list of rows hold the record of each of its rows and nothing else. */
  lemma DtosOf(l: seq<PromptRecord>)
    ensures |Dtos(l)| == |l|
    ensures forall x :: ToDto(x) in Dtos(l) <==> x in l
    ensures (forall x :: x in l ==> Active(x)) ==> forall d :: d in Dtos(l) ==> !d.deleted
  {
    var d := Dtos(l);
    forall x ensures ToDto(x) in d <==> x in l {
      if ToDto(x) in d {
        var i :| 0 <= i < |d| && d[i] == ToDto(x);
        assert ToDto(l[i]) == ToDto(x);
      }
      if x in l {
        var i :| 0 <= i < |l| && l[i] == x;
        assert d[i] == ToDto(x);
      }
    }
  }

  /**
   * A listing holds the record of every stored prompt the query selects
   * and of no other, each marked not deleted, newest first; it is as long
   * as the number of selected rows.
   */
  lemma ListingContents(rows: seq<PromptRecord>, c: Criterion)
    ensures Ordered(Listing(rows, c), NewerFirst)
    ensures |Dtos(Listing(rows, c))| == Seqs.Count(rows, Selector(c))
    ensures forall x :: ToDto(x) in Dtos(Listing(rows, c)) <==> x in rows && Matches(c, x)
    ensures forall d :: d in Dtos(Listing(rows, c)) ==> !d.deleted
  {
    ListingRows(rows, c);
    DtosOf(Listing(rows, c));
  }

  /**
   * A soft-deleted prompt appears in none of the listings, but a lookup by
   * its id still returns it.
   */
  lemma DeletedHiddenButReadable(rows: seq<PromptRecord>, r: PromptRecord, types: map<int, PromptType>, typeId: int, term: Option<string>)
    requires IdsIncreasing(rows, PromptIdOf) && r in rows && !Active(r)
    ensures ToDto(r) !in GetAllActivePrompts(rows)
    ensures ToDto(r) !in SearchActivePrompts(rows, term)
    ensures GetActivePromptsByType(rows, types, typeId).Ok? ==> ToDto(r) !in GetActivePromptsByType(rows, types, typeId).value
    ensures GetPromptById(rows, r.id) == Ok(ToDto(r))
  {
    ListingContents(rows, AllActive);
    ListingContents(rows, NameContains(term));
    ListingContents(rows, OfType(typeId));
    FindStored(rows, PromptIdOf, r);
  }

  /** A pattern that ends in '%' is never rejected. */
  lemma {:induction false} PercentEndedParses(p: string)
    requires p != [] && p[|p| - 1] == '%'
    ensures LikeTokens(p).Some?
    decreases |p|
  {
    if p[0] == '\\' {
      if |p| > 2 {
        PercentEndedParses(p[2..]);
      }
    } else if |p| > 1 {
      PercentEndedParses(p[1..]);
    }
  }

  /** The tokens of a text without special characters: one literal each. */
  function Literals(t: string): (r: seq<LikeToken>)
    ensures |r| == |t|
  {
    seq(|t|, i requires 0 <= i < |t| => Literal(t[i]))
  }

  /** A text without special characters reads as its literals, before what follows. */
  lemma {:induction false} LiteralsThen(t: string, q: string)
    requires forall i :: 0 <= i < |t| ==> !IsLikeSpecial(t[i])
    requires LikeTokens(q).Some?
    ensures LikeTokens(t + q) == Some(Literals(t) + LikeTokens(q).value)
    decreases |t|
  {
    if t == [] {
      assert t + q == q && Literals(t) == [];
      assert Literals(t) + LikeTokens(q).value == LikeTokens(q).value;
    } else {
      assert (t + q)[1..] == t[1..] + q;
      LiteralsThen(t[1..], q);
      TokensCons(t + q);
      assert !IsLikeSpecial(t[0]) && (t + q)[0] == t[0];
      assert Literals(t) == [Literal(t[0])] + Literals(t[1..]);
      assert Literals(t) + LikeTokens(q).value == [Literal(t[0])] + (Literals(t[1..]) + LikeTokens(q).value);
    }
  }

  /** A lone '%' matches any text. */
  lemma {:induction false} RunMatchesAll(s: string)
    ensures LikeMatch(s, [AnyRun])
    decreases |s|
  {
    if s != [] {
      RunMatchesAll(s[1..]);
    }
  }

  /** Literals followed by '%' match exactly the texts they begin. */
  lemma {:induction false} LiteralsPrefix(s: string, t: string)
    ensures LikeMatch(s, Literals(t) + [AnyRun]) <==> |t| <= |s| && s[..|t|] == t
    decreases |t|
  {
    if t == [] {
      assert Literals(t) + [AnyRun] == [AnyRun];
      RunMatchesAll(s);
    } else if s != [] {
      assert (Literals(t) + [AnyRun])[1..] == Literals(t[1..]) + [AnyRun];
      LiteralsPrefix(s[1..], t[1..]);
      if |t| <= |s| && s[..|t|] == t {
        assert s[1..][..|t| - 1] == t[1..];
      }
      if s != [] && s[0] == t[0] && |t| - 1 <= |s| - 1 && s[1..][..|t| - 1] == t[1..] {
        assert s[..|t|] == [s[0]] + s[1..][..|t| - 1];
      }
    }
  }

  /** A leading '%' lets the rest of the pattern match any suffix. */
  lemma {:induction false} RunThen(s: string, rest: seq<LikeToken>)
    ensures LikeMatch(s, [AnyRun] + rest) <==> exists i :: 0 <= i <= |s| && LikeMatch(s[i..], rest)
    decreases |s|
  {
    assert ([AnyRun] + rest)[1..] == rest;
    assert s[0..] == s;
    if s != [] {
      RunThen(s[1..], rest);
      forall i | 1 <= i <= |s| ensures s[i..] == s[1..][i - 1..] {
      }
      if exists i :: 0 <= i <= |s| && LikeMatch(s[i..], rest) {
        var i :| 0 <= i <= |s| && LikeMatch(s[i..], rest);
        if i > 0 {
          assert LikeMatch(s[1..][i - 1..], rest);
        }
      }
    }
  }

  /**
   * A search term without '%', '_' or '\' is found as a plain substring:
   * the prompt is selected exactly when its lower-cased name contains the
   * lower-cased term.
   */
  lemma NameSearchLiteral(r: PromptRecord, term: string)
    requires forall i :: 0 <= i < |term| ==> !IsLikeSpecial(term[i])
    ensures Matches(NameContains(Some(term)), r) <==> Active(r) && Contains(Lower(r.name), Lower(term))
  {
    var t := Lower(term);
    var s := Lower(r.name);
    assert forall i :: 0 <= i < |t| ==> !IsLikeSpecial(t[i]) by {
      forall i | 0 <= i < |t| ensures !IsLikeSpecial(t[i]) {
        assert t[i] == LowerChar(term[i]);
      }
    }
    LikeTokens1("%");
    LiteralsThen(t, "%");
    assert "%" + t + "%" == "%" + (t + "%");
    var body := Literals(t) + [AnyRun];
    assert LikeTokens("%" + t + "%") == Some([AnyRun] + body);
    RunThen(s, body);
    forall i | 0 <= i <= |s| ensures LikeMatch(s[i..], body) <==> OccursAt(s, t, i) {
      LiteralsPrefix(s[i..], t);
      if |t| <= |s[i..]| {
        assert s[i..][..|t|] == s[i..i + |t|];
      }
    }
  }

  /** The pattern "%" reads as a single run token. */
  lemma LikeTokens1(p: string)
    requires p == "%"
    ensures LikeTokens(p) == Some([AnyRun])
  {
    assert p[0] == '%' && p[1..] == [];
    assert LikeTokens(p[1..]) == Some([]);
    TokensCons(p);
    assert TokenOf(p[0]) == AnyRun;
    assert [AnyRun] + [] == [AnyRun];
  }

  /** An unescaped first character reads as its own token, before the tokens of the rest. */
  lemma TokensCons(p: string)
    requires p != [] && p[0] != '\\' && LikeTokens(p[1..]).Some?
    ensures LikeTokens(p) == Some([TokenOf(p[0])] + LikeTokens(p[1..]).value)
  {
  }

  /**
   * '_' is a wildcard: searching for "a_b" selects an active prompt named
   * "axb", whose name does not contain "a_b".
   */
  lemma UnderscoreMatchesAnyChar(r: PromptRecord)
    requires Active(r) && r.name == "axb"
    ensures Matches(NameContains(Some("a_b")), r)
    ensures !Contains(Lower(r.name), "a_b")
  {
    PatternAxb();
    assert Lower("axb") == "axb";
    MatchAxb();
    assert !OccursAt("axb", "a_b", 0) by {
      assert "axb"[0..3] == "axb";
    }
  }

  /** The tokens of the pattern the search for "a_b" builds. */
  lemma PatternAxb()
    ensures LikeTokens("%" + Lower("a_b") + "%") == Some([AnyRun, Literal('a'), AnyChar, Literal('b'), AnyRun])
  {
    assert Lower("a_b") == "a_b";
    var p := "%a_b%";
    assert "%" + Lower("a_b") + "%" == p;
    assert p[4..] == "%";
    LikeTokens1(p[4..]);
    assert p[3..][1..] == p[4..] && p[3] == 'b';
    TokensCons(p[3..]);
    assert TokenOf(p[3..][0]) == Literal('b');
    assert [Literal('b')] + [AnyRun] == [Literal('b'), AnyRun];
    assert LikeTokens(p[3..]) == Some([Literal('b'), AnyRun]);
    assert p[2..][1..] == p[3..] && p[2] == '_';
    TokensCons(p[2..]);
    assert TokenOf(p[2..][0]) == AnyChar;
    assert [AnyChar] + [Literal('b'), AnyRun] == [AnyChar, Literal('b'), AnyRun];
    assert LikeTokens(p[2..]) == Some([AnyChar, Literal('b'), AnyRun]);
    assert p[1..][1..] == p[2..] && p[1] == 'a';
    TokensCons(p[1..]);
    assert TokenOf(p[1..][0]) == Literal('a');
    assert [Literal('a')] + [AnyChar, Literal('b'), AnyRun] == [Literal('a'), AnyChar, Literal('b'), AnyRun];
    assert LikeTokens(p[1..]) == Some([Literal('a'), AnyChar, Literal('b'), AnyRun]);
    TokensCons(p);
    assert TokenOf(p[0]) == AnyRun;
    assert [AnyRun] + [Literal('a'), AnyChar, Literal('b'), AnyRun] == [AnyRun, Literal('a'), AnyChar, Literal('b'), AnyRun];
  }

  /** "axb" matches the tokens of "%a_b%". */
  lemma MatchAxb()
    ensures LikeMatch("axb", [AnyRun, Literal('a'), AnyChar, Literal('b'), AnyRun])
  {
    var toks := [AnyRun, Literal('a'), AnyChar, Literal('b'), AnyRun];
    RunMatchesAll([]);
    assert toks[4..] == [AnyRun];
    assert LikeMatch("b", toks[3..]) by {
      assert "b"[1..] == [];
      assert toks[3..][1..] == toks[4..];
    }
    assert LikeMatch("xb", toks[2..]) by {
      assert "xb"[1..] == "b";
      assert toks[2..][1..] == toks[3..];
    }
    assert LikeMatch("axb", toks[1..]) by {
      assert "axb"[1..] == "xb";
      assert toks[1..][1..] == toks[2..];
    }
  }

  /** A null search term selects nothing. */
  lemma NullTermFindsNothing(rows: seq<PromptRecord>)
    ensures SearchActivePrompts(rows, None) == []
  {
    var l := Listing(rows, NameContains(None));
    ListingRows(rows, NameContains(None));
  }

  /** An unknown id is not found by a lookup. */
  lemma UnknownIdNotFound(rows: seq<PromptRecord>, id: int)
    requires !HasId(rows, PromptIdOf, id)
    ensures GetPromptById(rows, id) == Err(PromptNotFound(id))
  {
  }

  // ---------------------------------------------------------------------
  // Create, update, delete
  // ---------------------------------------------------------------------

  /** The row a new prompt is saved as: built from the request, stamped by onCreate, given its generated id. */
  function NewVersion(request: PromptRequest, promptType: PromptType, now: int, id: int): PromptRecord
  {
    PromptRecord(id, request.name, request.text, promptType, Some(now), Some(now), None)
  }

  /** The row a retired prompt is saved as: markDeleted, then onUpdate when the change is flushed. */
  function Retired(p: PromptRecord, now: int): PromptRecord
  {
    p.(deletedDate := Some(now), updatedAt := Some(now))
  }

  /**
   * createPrompt: an unknown type id raises and saves nothing; otherwise
   * one new prompt of that type, active and stamped with the creation
   * time, is appended.
   */
  method CreatePrompt(request: PromptRequest, types: map<int, PromptType>, prompts: Repository<PromptRecord>, now: int)
    returns (r: Result<PromptDto>)
    requires prompts.Valid() && prompts.idOf == PromptIdOf && prompts.withId == PromptWithId
    modifies prompts
    ensures prompts.Valid()
    ensures request.typeId !in types ==> r == Err(TypeNotFound(request.typeId)) && prompts.rows == old(prompts.rows)
    ensures request.typeId in types ==>
      var row := NewVersion(request, types[request.typeId], now, old(prompts.nextId));
      match prompts.rejects(row)
      case Some(e) => r == Err(e) && prompts.rows == old(prompts.rows)
      case None => r == Ok(ToDto(row)) && prompts.rows == old(prompts.rows) + [row]
  {
    if request.typeId !in types {
      return Err(TypeNotFound(request.typeId));
    }
    var prompt := new Prompt.Build(request.name, request.text, types[request.typeId]);
    prompt.OnCreate(now);
    var saved := prompts.Insert(prompt.Record());
    if saved.Err? {
      return Err(saved.error);
    }
    prompt.id := saved.value;
    r := Ok(ToDto(prompt.Record()));
  }

  /** A created prompt is listed, and the active listing grows by exactly one. */
  lemma CreatedIsListed(rows: seq<PromptRecord>, row: PromptRecord)
    requires Active(row)
    ensures ToDto(row) in GetAllActivePrompts(rows + [row])
    ensures |GetAllActivePrompts(rows + [row])| == |GetAllActivePrompts(rows)| + 1
  {
    ListingContents(rows + [row], AllActive);
    ListingContents(rows, AllActive);
    Seqs.CountAppend(rows, [row], Selector(AllActive));
    assert Seqs.Count([row], Selector(AllActive)) == 1;
  }

  /** Why an update or delete is refused before anything is written, if it is. */
  function UpdateRefusal(rows: seq<PromptRecord>, types: map<int, PromptType>, id: int, typeId: int): Option<Exception>
  {
    match Find(rows, PromptIdOf, id)
    case None => Some(PromptNotFound(id))
    case Some(p) =>
      if !Active(p) then Some(IllegalStateException("Cannot update a deleted prompt"))
      else if typeId !in types then Some(TypeNotFound(typeId))
      else None
  }

  /**
   * updatePrompt: an unknown id, a deleted prompt or an unknown type id
   * raises and writes nothing. Otherwise the stored prompt is retired and
   * the request saved as a new prompt; if that insert fails, the retirement
   * is rolled back with the transaction.
   */
  method UpdatePrompt(id: int, request: PromptRequest, types: map<int, PromptType>, prompts: Repository<PromptRecord>, now: int)
    returns (r: Result<PromptDto>)
    requires prompts.Valid() && prompts.idOf == PromptIdOf && prompts.withId == PromptWithId
    modifies prompts
    ensures prompts.Valid()
    ensures UpdateRefusal(old(prompts.rows), types, id, request.typeId).Some? ==>
      r == Err(UpdateRefusal(old(prompts.rows), types, id, request.typeId).value) && prompts.rows == old(prompts.rows)
    ensures UpdateRefusal(old(prompts.rows), types, id, request.typeId).None? ==>
      var retired := Retired(Find(old(prompts.rows), PromptIdOf, id).value, now);
      var version := NewVersion(request, types[request.typeId], now, old(prompts.nextId));
      if prompts.rejects(retired).Some? then
        r == Err(prompts.rejects(retired).value) && prompts.rows == old(prompts.rows)
      else if prompts.rejects(version).Some? then
        r == Err(prompts.rejects(version).value) && prompts.rows == old(prompts.rows)
      else
        r == Ok(ToDto(version)) && prompts.rows == ReplaceById(old(prompts.rows), PromptIdOf, retired) + [version]
  {
    var found := prompts.FindById(id);
    if found.None? {
      return Err(PromptNotFound(id));
    }
    var existing := new Prompt.Load(found.value);
    if existing.IsDeleted() {
      return Err(IllegalStateException("Cannot update a deleted prompt"));
    }
    if request.typeId !in types {
      return Err(TypeNotFound(request.typeId));
    }
    r := Supersede(existing, request, types[request.typeId], prompts, now);
  }

  /**
   * The writes of a permitted update: the loaded prompt is retired and saved
   * over its row, then the new version is inserted; a failed insert rolls
   * the retirement back.
   */
  method Supersede(existing: Prompt, request: PromptRequest, promptType: PromptType, prompts: Repository<PromptRecord>, now: int)
    returns (r: Result<PromptDto>)
    requires prompts.Valid() && prompts.idOf == PromptIdOf && prompts.withId == PromptWithId
    requires HasId(prompts.rows, PromptIdOf, existing.id)
    modifies prompts, existing
    ensures prompts.Valid()
    ensures var retired := Retired(old(existing.Record()), now);
      var version := NewVersion(request, promptType, now, old(prompts.nextId));
      if prompts.rejects(retired).Some? then
        r == Err(prompts.rejects(retired).value) && prompts.rows == old(prompts.rows)
      else if prompts.rejects(version).Some? then
        r == Err(prompts.rejects(version).value) && prompts.rows == old(prompts.rows)
      else
        r == Ok(ToDto(version)) && prompts.rows == ReplaceById(old(prompts.rows), PromptIdOf, retired) + [version]
  {
    var before := prompts.rows;
    existing.MarkDeleted(now);
    existing.OnUpdate(now);
    var updated := prompts.Update(existing.Record());
    if updated.Err? {
      return Err(updated.error);
    }
    var prompt := new Prompt.Build(request.name, request.text, promptType);
    prompt.OnCreate(now);
    var saved := prompts.Insert(prompt.Record());
    if saved.Err? {
      prompts.Rollback(before);
      return Err(saved.error);
    }
    prompt.id := saved.value;
    r := Ok(ToDto(prompt.Record()));
  }

  /** After a successful update the new version is listed and the number of active prompts is what it was. */
  lemma UpdateKeepsActiveCount(rows: seq<PromptRecord>, id: int, now: int, version: PromptRecord)
    requires IdsIncreasing(rows, PromptIdOf) && HasId(rows, PromptIdOf, id)
    requires Active(Find(rows, PromptIdOf, id).value) && Active(version)
    ensures var rows' := ReplaceById(rows, PromptIdOf, Retired(Find(rows, PromptIdOf, id).value, now)) + [version];
      && ToDto(version) in GetAllActivePrompts(rows')
      && |GetAllActivePrompts(rows')| == |GetAllActivePrompts(rows)|
  {
    var retired := Retired(Find(rows, PromptIdOf, id).value, now);
    var replaced := ReplaceById(rows, PromptIdOf, retired);
    ReplaceCount(rows, PromptIdOf, retired, Selector(AllActive));
    CreatedIsListed(replaced, version);
    ListingRows(replaced, AllActive);
    ListingRows(rows, AllActive);
  }

  /**
   * After a successful update the old id names only the retired prompt,
   * which a lookup by id still returns, provided the new version's id is
   * not a stored one.
   */
  lemma UpdateRetiresOld(rows: seq<PromptRecord>, id: int, now: int, version: PromptRecord)
    requires IdsIncreasing(rows, PromptIdOf) && HasId(rows, PromptIdOf, id)
    requires !HasId(rows, PromptIdOf, version.id)
    ensures var retired := Retired(Find(rows, PromptIdOf, id).value, now);
      var rows' := ReplaceById(rows, PromptIdOf, retired) + [version];
      && (forall x :: x in rows' && x.id == id ==> x == retired && !Active(x))
      && GetPromptById(rows', id) == Ok(ToDto(retired))
  {
    var retired := Retired(Find(rows, PromptIdOf, id).value, now);
    assert version.id != id;
    OnlyRetiredHoldsId(rows, id, retired, version);
  }

  /** Saving a row over an id and appending a row with another id leaves that row the only one with the id. */
  lemma OnlyRetiredHoldsId(rows: seq<PromptRecord>, id: int, retired: PromptRecord, version: PromptRecord)
    requires HasId(rows, PromptIdOf, id) && retired.id == id && version.id != id
    ensures var rows' := ReplaceById(rows, PromptIdOf, retired) + [version];
      && HasId(rows', PromptIdOf, id)
      && forall x :: x in rows' && x.id == id ==> x == retired
  {
    var replaced := ReplaceById(rows, PromptIdOf, retired);
    var rows' := replaced + [version];
    var k :| 0 <= k < |rows| && PromptIdOf(rows[k]) == id;
    forall x | x in rows' && x.id == id ensures x == retired {
      if x != version {
        var i :| 0 <= i < |replaced| && replaced[i] == x;
        assert PromptIdOf(rows[i]) == id;
      }
    }
    assert PromptIdOf(rows'[k]) == id;
  }

  /**
   * deletePrompt: an unknown id raises and writes nothing; an already
   * deleted prompt is left as it is; otherwise only that prompt is
   * retired.
   */
  method DeletePrompt(id: int, prompts: Repository<PromptRecord>, now: int) returns (r: Result<()>)
    requires prompts.Valid() && prompts.idOf == PromptIdOf && prompts.withId == PromptWithId
    modifies prompts
    ensures prompts.Valid()
    ensures !HasId(old(prompts.rows), PromptIdOf, id) ==> r == Err(PromptNotFound(id)) && prompts.rows == old(prompts.rows)
    ensures HasId(old(prompts.rows), PromptIdOf, id) ==>
      var p := Find(old(prompts.rows), PromptIdOf, id).value;
      if !Active(p) then r == Ok(()) && prompts.rows == old(prompts.rows)
      else match prompts.rejects(Retired(p, now))
        case Some(e) => r == Err(e) && prompts.rows == old(prompts.rows)
        case None => r == Ok(()) && prompts.rows == ReplaceById(old(prompts.rows), PromptIdOf, Retired(p, now))
  {
    var found := prompts.FindById(id);
    if found.None? {
      return Err(PromptNotFound(id));
    }
    var prompt := new Prompt.Load(found.value);
    if prompt.IsDeleted() {
      return Ok(());
    }
    prompt.MarkDeleted(now);
    prompt.OnUpdate(now);
    var saved := prompts.Update(prompt.Record());
    if saved.Err? {
      return Err(saved.error);
    }
    r := Ok(());
  }

  /** Retiring an active prompt shortens the active listing by one and drops that prompt from it. */
  lemma DeleteRetiresOne(rows: seq<PromptRecord>, id: int, now: int)
    requires IdsIncreasing(rows, PromptIdOf) && HasId(rows, PromptIdOf, id)
    requires Active(Find(rows, PromptIdOf, id).value)
    ensures var p := Find(rows, PromptIdOf, id).value;
      var rows' := ReplaceById(rows, PromptIdOf, Retired(p, now));
      && |GetAllActivePrompts(rows')| + 1 == |GetAllActivePrompts(rows)|
      && ToDto(p) in GetAllActivePrompts(rows)
      && ToDto(p) !in GetAllActivePrompts(rows')
  {
    var p := Find(rows, PromptIdOf, id).value;
    var rows' := ReplaceById(rows, PromptIdOf, Retired(p, now));
    ReplaceCount(rows, PromptIdOf, Retired(p, now), Selector(AllActive));
    ListingContents(rows', AllActive);
    ListingContents(rows, AllActive);
  }
}
