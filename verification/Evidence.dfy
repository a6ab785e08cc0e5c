/** Read-only evidence turns: a batch of source reads and searches under per-request
    and global budgets, and the bounded context they are combined into
    (tools/engineering_evidence_tools.py). */
module Evidence {
  import opened Wrappers
  import Text

  datatype Result<+T> = Ok(value: T) | Err(error: Problem)

  datatype Problem =
    | BadCount
    | Unapproved
    | UnknownParameters
    | BadSearch
    | Unauthorized
    | BadSymbol
    | NothingFound
    | Refused
    | TooLarge
    | NotNew

  datatype Tool = Search | Read

  datatype Query = NoQuery | Query(text: string) | NotText

  datatype Request = Request(tool: Option<Tool>, extra: bool, query: Query, path: Option<string>)

  datatype Excerpt = Excerpt(path: string, content: string)

  /** A receipt names the tool, and the excerpt it stands for if there is one. */
  datatype Receipt = Receipt(tool: Tool, path: string, content: string)

  datatype Policy = Policy(
    allowed: set<Tool>, maxRequests: nat, maxSources: nat, maxChars: nat, maxTotal: nat,
    maxPrevious: nat, maxReceipts: nat, maxTurns: nat)
  {
    /** The bounds the policy file is checked for when it is loaded. */
    predicate Valid()
    {
      && 1 <= maxTurns <= 4 && 1 <= maxRequests <= 4 && 1 <= maxSources <= 12
      && 1000 <= maxChars <= 24000 && 2000 <= maxTotal <= 96000
      && maxPrevious <= 6 && 1 <= maxReceipts <= 16 && allowed != {}
    }
  }

  /** The repository during one batch: which tracked paths may be read, which symbols
      a file defines, and what the tool behind the i-th request finds. */
  datatype World = World(
    authorized: string -> bool, defines: (string, string) -> bool, finds: nat -> seq<Excerpt>)

  // ----- Symbol selectors -----

  predicate IsLetter(c: char) { 'A' <= c <= 'Z' || 'a' <= c <= 'z' || c == '_' }

  predicate IsWordChar(c: char) { IsLetter(c) || '0' <= c <= '9' }

  predicate IsSymbol(s: string)
  {
    3 <= |s| <= 80 && IsLetter(s[0]) && forall c | c in s :: IsWordChar(c)
  }

  function Split(s: string): (parts: seq<string>)
    ensures parts != []
  {
    if s == "" then [""]
    else
      var rest := Split(s[1..]);
      if s[0] == ',' then [""] + rest else [[s[0]] + rest[0]] + rest[1..]
  }

  /** One symbol, or two leading symbols separated by a comma; what follows a second
      comma is dropped. */
  function Symbols(q: Query): Result<seq<string>>
  {
    match q
    case NoQuery => Ok([])
    case NotText => Err(BadSymbol)
    case Query(text) =>
      if IsSymbol(text) then Ok([text])
      else if !(7 <= |text| <= 160 && forall c | c in text :: IsWordChar(c) || c == ' ' || c == ',') then Err(BadSymbol)
      else
        var parts := Split(text);
        if !(2 <= |parts| <= 4) then Err(BadSymbol)
        else
          var a, b := Text.Strip(parts[0]), Text.Strip(parts[1]);
          if a == b || !IsSymbol(a) || !IsSymbol(b) then Err(BadSymbol) else Ok([a, b])
  }

  lemma {:induction false} SplitAtComma(a: string, rest: string)
    requires ',' !in a
    ensures Split(a + "," + rest) == [a] + Split(rest)
  {
    if a == "" {
      assert a + "," + rest == "," + rest;
      assert ("," + rest)[1..] == rest;
    } else {
      SplitAtComma(a[1..], rest);
      assert (a + "," + rest)[1..] == a[1..] + "," + rest;
      assert [a[0]] + a[1..] == a;
    }
  }

  lemma SymbolsAreStripped(s: string)
    requires IsSymbol(s)
    ensures Text.Strip(s) == s
  {
    assert s[0] in s && s[|s| - 1] in s;
    assert Text.StripLeft(s) == s;
  }

  /** The prose behind two selected symbols never selects anything: whatever follows
      the second comma, the result is the same two symbols or a refusal. */
  lemma ProseIsDropped(a: string, b: string, prose: string)
    requires IsSymbol(a) && IsSymbol(b) && a != b
    ensures Symbols(Query(a + "," + (b + "," + prose))) in {Ok([a, b]), Err(BadSymbol)}
  {
    var text := a + "," + (b + "," + prose);
    assert text[|a|] == ',' && text[|a|] in text;
    SplitAtComma(a, b + "," + prose);
    SplitAtComma(b, prose);
    assert Split(text)[0] == a && Split(text)[1] == b;
    SymbolsAreStripped(a);
    SymbolsAreStripped(b);
    hide Text.Strip, Split;
  }

  /** Whatever is selected is at most two symbols, each of them a plain identifier, and
      no symbol twice. */
  lemma SelectorsAreIdentifiers(q: Query)
    requires Symbols(q).Ok?
    ensures |Symbols(q).value| <= 2
    ensures forall s | s in Symbols(q).value :: IsSymbol(s)
    ensures |Symbols(q).value| == 2 ==> Symbols(q).value[0] != Symbols(q).value[1]
  {
    hide IsSymbol, Split, Text.Strip;
  }

  // ----- Checking a batch -----

  /** What the repository's own gate and git agree to read: git prints the path back,
      stripped, so a path with surrounding blanks is never authorized. */
  predicate Safe(w: World, path: string)
  {
    path != "" && Text.Strip(path) == path && w.authorized(path)
  }

  function CheckRequest(r: Request, w: World, p: Policy): Option<Problem>
  {
    if r.tool == None || r.tool.value !in p.allowed then Some(Unapproved)
    else if r.extra then Some(UnknownParameters)
    else if r.tool.value == Search then
      if !r.query.Query? || !(3 <= |Text.Strip(r.query.text)| <= 100) || (r.path.Some? && r.path.value != "")
      then Some(BadSearch) else None
    else if r.path == None || !Safe(w, r.path.value) then Some(Unauthorized)
    else
      match Symbols(r.query)
      case Err(e) => Some(e)
      case Ok(names) =>
        if |names| == 2 && !(w.defines(r.path.value, names[0]) && w.defines(r.path.value, names[1]))
        then Some(BadSymbol) else None
  }

  // ----- What is accepted, in the words of the request -----

  /** A letter or an underscore, then letters, digits and underscores; 3 to 80 of them. */
  ghost predicate Identifier(s: string)
  {
    && 3 <= |s| <= 80
    && ('a' <= s[0] <= 'z' || 'A' <= s[0] <= 'Z' || s[0] == '_')
    && forall i | 0 <= i < |s| :: 'a' <= s[i] <= 'z' || 'A' <= s[i] <= 'Z' || s[i] == '_' || '0' <= s[i] <= '9'
  }

  lemma SymbolsAreIdentifiers(s: string)
    ensures IsSymbol(s) <==> Identifier(s)
  {
    if IsSymbol(s) {
      assert forall i | 0 <= i < |s| :: s[i] in s;
    }
  }

  /** Letters, digits, underscores, blanks and commas; 7 to 160 of them. */
  ghost predicate PlainHint(text: string)
  {
    && 7 <= |text| <= 160
    && forall i | 0 <= i < |text| ::
         || 'a' <= text[i] <= 'z' || 'A' <= text[i] <= 'Z' || text[i] == '_' || '0' <= text[i] <= '9'
         || text[i] == ' ' || text[i] == ','
  }

  lemma HintsArePlain(text: string)
    ensures (7 <= |text| <= 160 && forall c | c in text :: IsWordChar(c) || c == ' ' || c == ',') <==> PlainHint(text)
  {
    assert forall i | 0 <= i < |text| :: text[i] in text;
  }

  function Commas(s: string): nat
  {
    if s == "" then 0 else (if s[0] == ',' then 1 else 0) + Commas(s[1..])
  }

  /** The text begins with x and then ends or has its first comma. */
  ghost predicate BeginsWith(text: string, x: string)
  {
    ',' !in x && |x| <= |text| && text[..|x|] == x && (|x| == |text| || text[|x|] == ',')
  }

  /** The text begins with x, its first comma and y, and then ends or has its second comma. */
  ghost predicate BeginsWithPair(text: string, x: string, y: string)
  {
    BeginsWith(text, x) && |x| < |text| && BeginsWith(text[|x| + 1..], y)
  }

  lemma {:induction false} SplitCounts(s: string)
    ensures |Split(s)| == Commas(s) + 1
  {
    if s != "" {
      SplitCounts(s[1..]);
    }
  }

  lemma {:induction false} SplitHead(s: string)
    ensures ',' !in Split(s)[0] && |Split(s)[0]| <= |s| && s[..|Split(s)[0]|] == Split(s)[0]
    ensures |Split(s)| == 1 ==> Split(s) == [s]
    ensures |Split(s)| > 1 ==> |Split(s)[0]| < |s| && s[|Split(s)[0]|] == ',' && Split(s)[1..] == Split(s[|Split(s)[0]| + 1..])
  {
    if s != "" && s[0] != ',' {
      SplitHead(s[1..]);
      var n := |Split(s[1..])[0]|;
      assert s[..n + 1] == [s[0]] + s[1..][..n];
      assert Split(s)[1..] == Split(s[1..])[1..];
      if |Split(s)| > 1 {
        assert s[1..][n + 1..] == s[n + 2..];
      } else {
        assert [s[0]] + s[1..] == s;
      }
    }
  }

  lemma BeginningIsUnique(text: string, x: string, y: string)
    requires BeginsWith(text, x) && BeginsWith(text, y)
    ensures x == y
  {
    assert |x| == |y|;
  }

  lemma SplitFindsBeginning(text: string, x: string)
    ensures Split(text)[0] == x <==> BeginsWith(text, x)
    ensures Split(text)[0] == x ==> (|Split(text)| > 1 <==> |x| < |text|)
    ensures Split(text)[0] == x && |x| < |text| ==> Split(text)[1..] == Split(text[|x| + 1..])
  {
    SplitHead(text);
    assert BeginsWith(text, Split(text)[0]);
    if BeginsWith(text, x) {
      BeginningIsUnique(text, x, Split(text)[0]);
    }
  }

  /** Splitting finds the pair that the text begins with, if there is one. */
  lemma SplitFindsPair(text: string, x: string, y: string)
    ensures |Split(text)| >= 2 && Split(text)[0] == x && Split(text)[1] == y <==> BeginsWithPair(text, x, y)
  {
    hide BeginsWith, Split;
    SplitFindsBeginning(text, x);
    if Split(text)[0] == x && |x| < |text| {
      SplitFindsBeginning(text[|x| + 1..], y);
      assert Split(text)[1] == Split(text)[1..][0];
    }
  }

  /** The text selects this pair: plain, with one to three commas, beginning with two
      different identifiers that stand between blanks. */
  ghost predicate SelectsPair(text: string, a: string, b: string)
  {
    && PlainHint(text) && !Identifier(text) && 1 <= Commas(text) <= 3
    && a != b && Identifier(a) && Identifier(b)
    && exists x, y :: BeginsWithPair(text, x, y) && Text.Strip(x) == a && Text.Strip(y) == b
  }

  /** What a selector selects, exactly. */
  lemma SelectorsAreExact(q: Query)
    ensures Symbols(q) == Ok([]) <==> q == NoQuery
    ensures forall a :: Symbols(q) == Ok([a]) <==> q == Query(a) && Identifier(a)
    ensures forall a, b :: Symbols(q) == Ok([a, b]) <==> q.Query? && SelectsPair(q.text, a, b)
    ensures Symbols(q).Ok? ==> |Symbols(q).value| <= 2
  {
    hide Text.Strip, Identifier, IsSymbol, PlainHint, IsWordChar, BeginsWithPair, Split, Commas;
    if q.Query? {
      var text := q.text;
      HintsArePlain(text);
      forall s ensures IsSymbol(s) <==> Identifier(s) { SymbolsAreIdentifiers(s); }
      SplitCounts(text);
      forall a, b ensures Symbols(q) == Ok([a, b]) <==> SelectsPair(text, a, b) {
        PairsAreExact(text, a, b);
      }
    }
  }

  lemma PairsAreExact(text: string, a: string, b: string)
    ensures Symbols(Query(text)) == Ok([a, b]) <==> SelectsPair(text, a, b)
  {
    hide Text.Strip, Identifier, IsSymbol, PlainHint, IsWordChar, BeginsWithPair, Split, Commas;
    HintsArePlain(text);
    forall s ensures IsSymbol(s) <==> Identifier(s) { SymbolsAreIdentifiers(s); }
    SplitCounts(text);
    forall x, y ensures |Split(text)| >= 2 && Split(text)[0] == x && Split(text)[1] == y <==> BeginsWithPair(text, x, y) {
      SplitFindsPair(text, x, y);
    }
    if |Split(text)| >= 2 {
      assert BeginsWithPair(text, Split(text)[0], Split(text)[1]);
    }
  }

  /** The selector of a read is none, one identifier, or a pair that the path defines. */
  ghost predicate GoodSelector(q: Query, path: string, w: World)
  {
    || q == NoQuery
    || (q.Query? && Identifier(q.text))
    || (q.Query? && exists a, b :: SelectsPair(q.text, a, b) && w.defines(path, a) && w.defines(path, b))
  }

  ghost predicate GoodSearch(r: Request)
  {
    r.query.Query? && 3 <= |Text.Strip(r.query.text)| <= 100 && (r.path == None || r.path == Some(""))
  }

  ghost predicate GoodPath(r: Request, w: World)
  {
    r.path.Some? && r.path.value != "" && Text.Strip(r.path.value) == r.path.value && w.authorized(r.path.value)
  }

  /** What makes a request acceptable. */
  ghost predicate Fit(r: Request, w: World, p: Policy)
  {
    && r.tool.Some? && r.tool.value in p.allowed && !r.extra
    && (r.tool == Some(Search) ==> GoodSearch(r))
    && (r.tool == Some(Read) ==> GoodPath(r, w) && GoodSelector(r.query, r.path.value, w))
  }

  /** What is wrong with a request that is not: the first of these. */
  ghost predicate WrongWith(r: Request, w: World, p: Policy, e: Problem)
  {
    if r.tool == None || r.tool.value !in p.allowed then e == Unapproved
    else if r.extra then e == UnknownParameters
    else if r.tool == Some(Search) then !GoodSearch(r) && e == BadSearch
    else if !GoodPath(r, w) then e == Unauthorized
    else !GoodSelector(r.query, r.path.value, w) && e == BadSymbol
  }

  lemma RequestsAreCheckedExactly(r: Request, w: World, p: Policy)
    ensures CheckRequest(r, w, p) == None <==> Fit(r, w, p)
    ensures CheckRequest(r, w, p).Some? ==> WrongWith(r, w, p, CheckRequest(r, w, p).value)
  {
    hide Text.Strip, Identifier, SelectsPair, Symbols;
    SelectorsAreExact(r.query);
    SymbolErrors(r.query);
  }

  lemma SymbolErrors(q: Query)
    ensures Symbols(q).Err? ==> Symbols(q).error == BadSymbol
    ensures Symbols(q).Ok? && |Symbols(q).value| == 2 ==> Symbols(q).value == [Symbols(q).value[0], Symbols(q).value[1]]
    ensures Symbols(q).Ok? && |Symbols(q).value| == 1 ==> Symbols(q).value == [Symbols(q).value[0]]
  {
    hide Split, IsSymbol, Text.Strip;
  }

  // ----- Reference: what a batch collects -----

  function Clip(e: Excerpt, p: Policy): Excerpt
  {
    Excerpt(e.path, if |e.content| > p.maxChars then e.content[..p.maxChars] else e.content)
  }

  function Paths(es: seq<Excerpt>): set<string>
  {
    set e | e in es :: e.path
  }

  /** The hit adds nothing: known already, not authorized, or empty. */
  predicate Idle(e: Excerpt, seen: set<string>, w: World)
  {
    e.path in seen || !Safe(w, e.path) || e.content == ""
  }

  /** The hits that are new, authorized and say something, each path once. */
  function Fresh(found: seq<Excerpt>, seen: set<string>, w: World, p: Policy): seq<Excerpt>
  {
    if found == [] then []
    else
      var e := Clip(found[0], p);
      if Idle(e, seen, w) then Fresh(found[1..], seen, w, p)
      else [e] + Fresh(found[1..], seen + {e.path}, w, p)
  }

  function Least(a: nat, b: nat): nat { if a < b then a else b }

  function Quota(tool: Tool, taken: nat, p: Policy): nat
    requires taken < p.maxSources
  {
    if tool == Read then 1 else Least(2, p.maxSources - taken)
  }

  function Take(es: seq<Excerpt>, n: nat): (r: seq<Excerpt>)
    ensures |r| == Least(n, |es|) && r <= es
  {
    if |es| <= n then es else es[..n]
  }

  function Admit(i: nat, tool: Tool, taken: seq<Excerpt>, w: World, p: Policy): seq<Excerpt>
    requires |taken| < p.maxSources
  {
    Take(Fresh(w.finds(i), Paths(taken), w, p), Quota(tool, |taken|, p))
  }

  datatype Call = Call(index: nat, tool: Tool)

  datatype Batch = Batch(call: Call, admitted: seq<Excerpt>)

  /** The calls in the order they are made, with what each of them contributes. */
  function Gather(calls: seq<Call>, taken: seq<Excerpt>, w: World, p: Policy): seq<Batch>
    decreases |calls|
  {
    if calls == [] || |taken| >= p.maxSources then []
    else
      var b := Admit(calls[0].index, calls[0].tool, taken, w, p);
      [Batch(calls[0], b)] + Gather(calls[1..], taken + b, w, p)
  }

  function Excerpts(bs: seq<Batch>): seq<Excerpt>
  {
    if bs == [] then [] else bs[0].admitted + Excerpts(bs[1..])
  }

  function ReceiptFor(tool: Tool, e: Excerpt): Receipt { Receipt(tool, e.path, e.content) }

  function ReceiptsOf(b: Batch): seq<Receipt>
  {
    var named := seq(|b.admitted|, k requires 0 <= k < |b.admitted| => ReceiptFor(b.call.tool, b.admitted[k]));
    if named == [] then [Receipt(b.call.tool, "", "")] else named
  }

  /** The receipts of a call name its tool: one for each of its sources, or a single empty one. */
  lemma ReceiptsAreExact(b: Batch)
    ensures b.admitted == [] ==> ReceiptsOf(b) == [Receipt(b.call.tool, "", "")]
    ensures b.admitted != [] ==>
              && |ReceiptsOf(b)| == |b.admitted|
              && forall i | 0 <= i < |b.admitted| ::
                   ReceiptsOf(b)[i] == Receipt(b.call.tool, b.admitted[i].path, b.admitted[i].content)
  {
  }

  function Receipts(bs: seq<Batch>): seq<Receipt>
  {
    if bs == [] then [] else ReceiptsOf(bs[0]) + Receipts(bs[1..])
  }

  function CallsOf(requests: seq<Request>, tool: Tool, from: nat): seq<Call>
    requires from <= |requests|
    decreases |requests| - from
  {
    if from == |requests| then []
    else (if requests[from].tool == Some(tool) then [Call(from, tool)] else []) + CallsOf(requests, tool, from + 1)
  }

  /** Reads before searches, each kind in the order asked for. */
  function Plan(requests: seq<Request>): seq<Call>
  {
    CallsOf(requests, Read, 0) + CallsOf(requests, Search, 0)
  }

  function Collected(requests: seq<Request>, w: World, p: Policy): seq<Batch>
  {
    Gather(Plan(requests), [], w, p)
  }

  // ----- The tools -----

  lemma {:induction false} FreshOneMore(found: seq<Excerpt>, i: nat, seen: set<string>, w: World, p: Policy)
    requires i < |found|
    ensures var front := Fresh(found[..i], seen, w, p);
            var e := Clip(found[i], p);
            Fresh(found[..i + 1], seen, w, p) == front + if Idle(e, seen + Paths(front), w) then [] else [e]
  {
    hide Idle, Clip, Paths;
    if i == 0 {
      assert found[..0] == [] && found[..1] == [found[0]] && [found[0]][1..] == [];
      assert Paths([]) == {} && seen + {} == seen by { NoPaths(); }
    } else {
      var rest := found[1..];
      assert found[..i][1..] == rest[..i - 1] && found[..i + 1][1..] == rest[..i] && found[i] == rest[i - 1];
      assert found[..i][0] == found[0] && found[..i + 1][0] == found[0];
      var h := Clip(found[0], p);
      if Idle(h, seen, w) {
        FreshOneMore(rest, i - 1, seen, w, p);
      } else {
        FreshOneMore(rest, i - 1, seen + {h.path}, w, p);
        var later := Fresh(rest[..i - 1], seen + {h.path}, w, p);
        PathsOfJoin([h], later);
        OnePath(h);
        assert seen + {h.path} + Paths(later) == seen + Paths([h] + later);
      }
    }
  }

  lemma NoPaths()
    ensures Paths([]) == {}
  {
  }

  lemma OnePath(e: Excerpt)
    ensures Paths([e]) == {e.path}
  {
    assert e in [e];
  }

  /** What is admitted are hits in the order they were found, each cut to the limit. */
  lemma {:induction false} HitsKeepTheirOrder(found: seq<Excerpt>, seen: set<string>, w: World, p: Policy)
    returns (at: seq<nat>)
    ensures var news := Fresh(found, seen, w, p);
            && |at| == |news|
            && (forall i | 0 <= i < |at| :: at[i] < |found| && CutFrom(news[i], found[at[i]], p))
            && (forall i, j | 0 <= i < j < |at| :: at[i] < at[j])
  {
    at := [];
    if found != [] {
      var e := Clip(found[0], p);
      var later := HitsKeepTheirOrder(found[1..], if Idle(e, seen, w) then seen else seen + {e.path}, w, p);
      var shifted := seq(|later|, i requires 0 <= i < |later| => later[i] + 1);
      at := if Idle(e, seen, w) then shifted else [0] + shifted;
      hide Idle;
      assert CutFrom(e, found[0], p);
      assert forall i | 0 <= i < |later| :: found[1..][later[i]] == found[shifted[i]];
    }
  }

  /** The same source, with as much of its content as the limit allows. */
  ghost predicate CutFrom(e: Excerpt, hit: Excerpt, p: Policy)
  {
    && e.path == hit.path && e.content <= hit.content
    && (if |hit.content| <= p.maxChars then e.content == hit.content else |e.content| == p.maxChars)
  }

  /** How many of the new hits are admitted: one for a read, two for a search, and never
      more than there is room for. */
  lemma QuotasAreExact(i: nat, tool: Tool, taken: seq<Excerpt>, w: World, p: Policy)
    requires |taken| < p.maxSources
    ensures var news := Fresh(w.finds(i), Paths(taken), w, p);
            var n := |Admit(i, tool, taken, w, p)|;
            && Admit(i, tool, taken, w, p) == news[..n]
            && (tool == Read ==> n == if |news| >= 1 then 1 else 0)
            && (tool == Search && p.maxSources - |taken| >= 2 ==> n == if |news| >= 2 then 2 else |news|)
            && (tool == Search && p.maxSources - |taken| == 1 ==> n == if |news| >= 1 then 1 else 0)
  {
    hide Fresh;
  }

  lemma PathsOfJoin(a: seq<Excerpt>, b: seq<Excerpt>)
    ensures Paths(a + b) == Paths(a) + Paths(b)
  {
    forall e | e in a + b ensures e in a || e in b { }
    forall e | e in a || e in b ensures e in a + b { }
  }

  lemma {:induction false} FreshGrows(found: seq<Excerpt>, i: nat, seen: set<string>, w: World, p: Policy)
    requires i <= |found|
    ensures Fresh(found[..i], seen, w, p) <= Fresh(found, seen, w, p)
    decreases |found| - i
  {
    if i == |found| {
      assert found[..i] == found;
    } else {
      FreshOneMore(found, i, seen, w, p);
      FreshGrows(found, i + 1, seen, w, p);
    }
  }

  /** The hits one call may add: as many new ones as its quota allows, in order. */
  method AdmitHits(i: nat, tool: Tool, taken: seq<Excerpt>, w: World, p: Policy) returns (admitted: seq<Excerpt>)
    requires |taken| < p.maxSources
    ensures admitted == Admit(i, tool, taken, w, p)
  {
    hide Fresh, Safe, Paths;
    var found := w.finds(i);
    var quota := if tool == Read then 1 else Least(2, p.maxSources - |taken|);
    ghost var before := Paths(taken);
    NoPaths();
    var seen := Paths(taken);
    admitted := [];
    assert Fresh(found[..0], before, w, p) == [] by { NothingFresh(found, before, w, p); }
    for k := 0 to |found|
      invariant admitted == Fresh(found[..k], before, w, p)
      invariant seen == before + Paths(admitted)
      invariant |admitted| < quota
    {
      FreshOneMore(found, k, before, w, p);
      var source := found[k].path;
      if source in seen || !Safe(w, source) {
        continue;
      }
      var content := Clip(found[k], p).content;
      if content == "" {
        continue;
      }
      seen := seen + {source};
      PathsOfJoin(admitted, [Excerpt(source, content)]);
      OnePath(Excerpt(source, content));
      admitted := admitted + [Excerpt(source, content)];
      if |admitted| >= quota || |taken| + |admitted| >= p.maxSources {
        FreshGrows(found, k + 1, before, w, p);
        return;
      }
    }
    assert found[..|found|] == found;
  }

  lemma NothingFresh(found: seq<Excerpt>, seen: set<string>, w: World, p: Policy)
    ensures Fresh(found[..0], seen, w, p) == []
  {
  }

  datatype Turn = Turn(excerpts: seq<Excerpt>, receipts: seq<Receipt>)

  ghost predicate Acceptable(requests: seq<Request>, w: World, p: Policy)
  {
    0 < |requests| <= p.maxRequests && forall r | r in requests :: CheckRequest(r, w, p) == None
  }

  /** One batch: all requests are checked before any tool runs; then the tools run until
      the sources are used up. The number of tool calls made is returned as well. */
  method ExecuteTools(requests: seq<Request>, w: World, p: Policy) returns (r: Result<Turn>, calls: nat)
    ensures !Acceptable(requests, w, p) ==> r.Err? && calls == 0
    ensures requests == [] || |requests| > p.maxRequests ==> r == Err(BadCount) && calls == 0
    ensures 0 < |requests| <= p.maxRequests && (exists i | 0 <= i < |requests| :: !Fit(requests[i], w, p)) ==>
              && r.Err? && calls == 0
              && exists i | 0 <= i < |requests| ::
                   && !Fit(requests[i], w, p) && WrongWith(requests[i], w, p, r.error)
                   && forall j | 0 <= j < i :: Fit(requests[j], w, p)
    ensures 0 < |requests| <= p.maxRequests && (forall i | 0 <= i < |requests| :: Fit(requests[i], w, p)) ==>
              Acceptable(requests, w, p)
    ensures Acceptable(requests, w, p) ==>
              var bs := Collected(requests, w, p);
              && calls == |bs|
              && r == if Excerpts(bs) == [] then Err(NothingFound)
                      else Ok(Turn(Excerpts(bs), Kept(Receipts(bs), p)))
  {
    hide CheckRequest, Plan, Admit, ReceiptsOf, Fit, WrongWith;
    calls := 0;
    if requests == [] || |requests| > p.maxRequests {
      return Err(BadCount), 0;
    }
    for i := 0 to |requests|
      invariant forall k | 0 <= k < i :: CheckRequest(requests[k], w, p) == None && Fit(requests[k], w, p)
    {
      RequestsAreCheckedExactly(requests[i], w, p);
      var problem := CheckRequest(requests[i], w, p);
      if problem.Some? {
        return Err(problem.value), 0;
      }
    }
    var plan := Plan(requests);
    var excerpts: seq<Excerpt> := [];
    var receipts: seq<Receipt> := [];
    ghost var bs := Collected(requests, w, p);
    var i := 0;
    while i < |plan| && |excerpts| < p.maxSources
      invariant i <= |plan| && calls == i
      invariant |bs| == i + |Gather(plan[i..], excerpts, w, p)|
      invariant Excerpts(bs) == excerpts + Excerpts(Gather(plan[i..], excerpts, w, p))
      invariant Receipts(bs) == receipts + Receipts(Gather(plan[i..], excerpts, w, p))
    {
      ghost var rest := Gather(plan[i..], excerpts, w, p);
      var admitted := AdmitHits(plan[i].index, plan[i].tool, excerpts, w, p);
      assert plan[i..][0] == plan[i] && plan[i..][1..] == plan[i + 1..];
      assert rest == [Batch(plan[i], admitted)] + Gather(plan[i + 1..], excerpts + admitted, w, p);
      assert rest[1..] == Gather(plan[i + 1..], excerpts + admitted, w, p);
      receipts := receipts + ReceiptsOf(Batch(plan[i], admitted));
      excerpts := excerpts + admitted;
      calls := calls + 1;
      i := i + 1;
    }
    assert i == |plan| ==> plan[i..] == [];
    assert Gather(plan[i..], excerpts, w, p) == [];
    assert Excerpts(bs) == excerpts && Receipts(bs) == receipts;
    r := if excerpts == [] then Err(NothingFound)
         else Ok(Turn(excerpts, Kept(receipts, p)));
  }

  // ----- What a batch may contain -----

  predicate Sound(e: Excerpt, w: World, p: Policy)
  {
    Safe(w, e.path) && 0 < |e.content| <= p.maxChars
  }

  /** Authorized sources with bounded, real content, no path twice. */
  ghost predicate WellChosen(es: seq<Excerpt>, w: World, p: Policy)
  {
    && (forall i | 0 <= i < |es| :: Sound(es[i], w, p))
    && (forall i, j | 0 <= i < j < |es| :: es[i].path != es[j].path)
  }

  lemma {:induction false} FreshIsWellChosen(found: seq<Excerpt>, seen: set<string>, w: World, p: Policy)
    ensures WellChosen(Fresh(found, seen, w, p), w, p)
    ensures Paths(Fresh(found, seen, w, p)) !! seen
  {
    hide Safe;
    if found != [] {
      var e := Clip(found[0], p);
      if Idle(e, seen, w) {
        FreshIsWellChosen(found[1..], seen, w, p);
      } else {
        var rest := Fresh(found[1..], seen + {e.path}, w, p);
        FreshIsWellChosen(found[1..], seen + {e.path}, w, p);
        PathsOfJoin([e], rest);
        OnePath(e);
        JoinIsWellChosen([e], rest, w, p);
      }
    }
  }

  lemma JoinIsWellChosen(a: seq<Excerpt>, b: seq<Excerpt>, w: World, p: Policy)
    requires WellChosen(a, w, p) && WellChosen(b, w, p) && Paths(a) !! Paths(b)
    ensures WellChosen(a + b, w, p)
  {
    hide Sound;
    var all := a + b;
    forall i | 0 <= i < |all| ensures Sound(all[i], w, p) {
      assert if i < |a| then all[i] == a[i] else all[i] == b[i - |a|];
    }
    forall i, j | 0 <= i < j < |all| ensures all[i].path != all[j].path {
      if i < |a| <= j {
        assert a[i].path in Paths(a) && b[j - |a|].path in Paths(b);
      }
    }
  }

  lemma AdmitIsWellChosen(i: nat, tool: Tool, taken: seq<Excerpt>, w: World, p: Policy)
    requires |taken| < p.maxSources && WellChosen(taken, w, p)
    ensures WellChosen(taken + Admit(i, tool, taken, w, p), w, p)
    ensures |Admit(i, tool, taken, w, p)| <= if tool == Read then 1 else 2
    ensures |taken| + |Admit(i, tool, taken, w, p)| <= p.maxSources
  {
    var news := Fresh(w.finds(i), Paths(taken), w, p);
    var b := Admit(i, tool, taken, w, p);
    FreshIsWellChosen(w.finds(i), Paths(taken), w, p);
    hide Fresh, Sound;
    assert forall k | 0 <= k < |b| :: b[k] == news[k];
    assert Paths(b) !! Paths(taken) by {
      forall e | e in b ensures e.path in Paths(news) {
        assert e in news;
      }
    }
    JoinIsWellChosen(taken, b, w, p);
  }

  /** Every batch keeps every budget: at most one source per read and two per search,
      all together within the global cap, each authorized, bounded and chosen once. */
  lemma {:induction false} BudgetsHold(calls: seq<Call>, taken: seq<Excerpt>, w: World, p: Policy)
    requires WellChosen(taken, w, p) && |taken| <= p.maxSources
    ensures var bs := Gather(calls, taken, w, p);
            && WellChosen(taken + Excerpts(bs), w, p)
            && |taken| + |Excerpts(bs)| <= p.maxSources
            && |bs| <= |calls|
            && (forall i | 0 <= i < |bs| :: bs[i].call == calls[i] && |bs[i].admitted| <= if calls[i].tool == Read then 1 else 2)
    decreases |calls|
  {
    hide WellChosen, Admit;
    if calls == [] || |taken| >= p.maxSources {
      assert taken + [] == taken;
    } else {
      var b := Admit(calls[0].index, calls[0].tool, taken, w, p);
      AdmitIsWellChosen(calls[0].index, calls[0].tool, taken, w, p);
      BudgetsHold(calls[1..], taken + b, w, p);
      var later := Gather(calls[1..], taken + b, w, p);
      var bs := Gather(calls, taken, w, p);
      assert bs[1..] == later;
      assert taken + (b + Excerpts(later)) == taken + b + Excerpts(later);
      assert forall i | 0 < i < |bs| :: bs[i] == later[i - 1] && calls[i] == calls[1..][i - 1];
    }
  }

  /** The budgets of a whole batch of requests. */
  lemma CollectedIsWithinBudgets(requests: seq<Request>, w: World, p: Policy)
    ensures var bs := Collected(requests, w, p);
            && WellChosen(Excerpts(bs), w, p)
            && |Excerpts(bs)| <= p.maxSources
            && |bs| <= |Plan(requests)|
            && (forall i | 0 <= i < |bs| ::
                  && bs[i].call == Plan(requests)[i]
                  && |bs[i].admitted| <= if bs[i].call.tool == Read then 1 else 2)
  {
    BudgetsHold(Plan(requests), [], w, p);
    assert [] + Excerpts(Collected(requests, w, p)) == Excerpts(Collected(requests, w, p));
  }

  // ----- Reads come first -----

  lemma {:induction false} GatherSplits(first: seq<Call>, rest: seq<Call>, taken: seq<Excerpt>, w: World, p: Policy)
    ensures var bs := Gather(first, taken, w, p);
            Gather(first + rest, taken, w, p) == bs + Gather(rest, taken + Excerpts(bs), w, p)
    decreases |first|
  {
    hide Admit;
    if first == [] || |taken| >= p.maxSources {
      assert first == [] ==> first + rest == rest;
      assert taken + [] == taken;
    } else {
      var b := Admit(first[0].index, first[0].tool, taken, w, p);
      GatherSplits(first[1..], rest, taken + b, w, p);
      assert (first + rest)[0] == first[0] && (first + rest)[1..] == first[1..] + rest;
      var later := Gather(first[1..], taken + b, w, p);
      assert Gather(first, taken, w, p)[1..] == later;
      assert taken + (b + Excerpts(later)) == taken + b + Excerpts(later);
    }
  }

  lemma {:induction false} ExcerptsOfJoin(a: seq<Batch>, b: seq<Batch>)
    ensures Excerpts(a + b) == Excerpts(a) + Excerpts(b)
  {
    if a == [] {
      assert a + b == b;
    } else {
      ExcerptsOfJoin(a[1..], b);
      var joined, x, y, z := a + b, a[0].admitted, Excerpts(a[1..]), Excerpts(b);
      assert joined[0] == a[0] && joined[1..] == a[1..] + b;
      assert Excerpts(joined) == x + (y + z);
      assert x + (y + z) == (x + y) + z;
    }
  }

  /** A hit that the tool behind the call offers and that may be shown. */
  predicate Offers(c: Call, path: string, w: World, p: Policy)
  {
    exists k | 0 <= k < |w.finds(c.index)| :: Shows(w.finds(c.index)[k], path, w, p)
  }

  predicate Shows(e: Excerpt, path: string, w: World, p: Policy)
  {
    e.path == path && Safe(w, path) && Clip(e, p).content != ""
  }

  /** Whatever a call offers is either new or was taken before. */
  lemma {:induction false} NothingOfferedIsLost(found: seq<Excerpt>, k: nat, seen: set<string>, w: World, p: Policy)
    requires k < |found| && Shows(found[k], found[k].path, w, p)
    ensures found[k].path in seen + Paths(Fresh(found, seen, w, p))
  {
    hide Safe, Paths;
    var e := Clip(found[0], p);
    if Idle(e, seen, w) {
      if k > 0 {
        NothingOfferedIsLost(found[1..], k - 1, seen, w, p);
      }
    } else {
      var rest := Fresh(found[1..], seen + {e.path}, w, p);
      PathsOfJoin([e], rest);
      OnePath(e);
      if k > 0 {
        NothingOfferedIsLost(found[1..], k - 1, seen + {e.path}, w, p);
      }
    }
  }

  /** While there is room for every read, every read is made, and one that offers
      anything has one of its sources in the result. */
  lemma {:induction false} ReadsAreServed(calls: seq<Call>, taken: seq<Excerpt>, i: nat, path: string, w: World, p: Policy)
    requires i < |calls| && |taken| + |calls| <= p.maxSources
    requires forall c | c in calls :: c.tool == Read
    requires Offers(calls[i], path, w, p)
    ensures exists q | q in Paths(taken + Excerpts(Gather(calls, taken, w, p))) :: Offers(calls[i], q, w, p)
    decreases |calls|
  {
    var b := Admit(calls[0].index, calls[0].tool, taken, w, p);
    var later := Gather(calls[1..], taken + b, w, p);
    assert Gather(calls, taken, w, p)[1..] == later;
    assert taken + (b + Excerpts(later)) == taken + b + Excerpts(later);
    if i > 0 {
      hide Paths, Offers, Fresh;
      ReadsAreServed(calls[1..], taken + b, i - 1, path, w, p);
    } else {
      ReadIsServed(calls[0], taken, path, w, p);
      PathsOfJoin(taken + b, Excerpts(later));
    }
  }

  lemma ReadIsServed(c: Call, taken: seq<Excerpt>, path: string, w: World, p: Policy)
    requires |taken| < p.maxSources && Offers(c, path, w, p)
    ensures exists q | q in Paths(taken + Admit(c.index, c.tool, taken, w, p)) :: Offers(c, q, w, p)
  {
    var found := w.finds(c.index);
    var k :| 0 <= k < |found| && Shows(found[k], path, w, p);
    var news := Fresh(found, Paths(taken), w, p);
    var b := Admit(c.index, c.tool, taken, w, p);
    PathsOfJoin(taken, b);
    NothingOfferedIsLost(found, k, Paths(taken), w, p);
    if path !in Paths(taken) {
      assert news != [] && b[0] == news[0];
      FreshComesFromHits(found, Paths(taken), w, p);
      assert b[0] in b && b[0].path in Paths(b);
    }
  }

  lemma {:induction false} FreshComesFromHits(found: seq<Excerpt>, seen: set<string>, w: World, p: Policy)
    requires Fresh(found, seen, w, p) != []
    ensures exists k | 0 <= k < |found| :: Shows(found[k], Fresh(found, seen, w, p)[0].path, w, p)
  {
    hide Safe;
    var e := Clip(found[0], p);
    if Idle(e, seen, w) {
      FreshComesFromHits(found[1..], seen, w, p);
      var k :| 0 <= k < |found[1..]| && Shows(found[1..][k], Fresh(found[1..], seen, w, p)[0].path, w, p);
      assert found[k + 1] == found[1..][k];
    } else {
      assert Shows(found[0], e.path, w, p);
    }
  }

  lemma {:induction false} CallsAreOfTheirKind(requests: seq<Request>, tool: Tool, from: nat)
    requires from <= |requests|
    ensures forall c | c in CallsOf(requests, tool, from) ::
              c.tool == tool && from <= c.index < |requests| && requests[c.index].tool == Some(tool)
    ensures forall i | from <= i < |requests| && requests[i].tool == Some(tool) :: Call(i, tool) in CallsOf(requests, tool, from)
    decreases |requests| - from
  {
    if from < |requests| {
      CallsAreOfTheirKind(requests, tool, from + 1);
    }
  }

  /** What the reads collect never depends on the searches beside them: it comes first
      in the result as if there were no searches. And when there are no more reads than
      sources, a read that offers anything is represented. */
  lemma SearchesNeverDisplaceReads(requests: seq<Request>, w: World, p: Policy)
    ensures var reading := CallsOf(requests, Read, 0);
            && Excerpts(Gather(reading, [], w, p)) <= Excerpts(Collected(requests, w, p))
            && (|reading| <= p.maxSources ==>
                  forall c, path | c in reading && Offers(c, path, w, p) ::
                    exists q | q in Paths(Excerpts(Collected(requests, w, p))) :: Offers(c, q, w, p))
  {
    hide Paths, Offers;
    var reading, searching := CallsOf(requests, Read, 0), CallsOf(requests, Search, 0);
    var bs := Gather(reading, [], w, p);
    var rest := Gather(searching, [] + Excerpts(bs), w, p);
    GatherSplits(reading, searching, [], w, p);
    ExcerptsOfJoin(bs, rest);
    PathsOfJoin(Excerpts(bs), Excerpts(rest));
    CallsAreOfTheirKind(requests, Read, 0);
    if |reading| <= p.maxSources {
      forall c, path | c in reading && Offers(c, path, w, p)
        ensures exists q | q in Paths(Excerpts(Collected(requests, w, p))) :: Offers(c, q, w, p)
      {
        var i :| 0 <= i < |reading| && reading[i] == c;
        ReadsAreServed(reading, [], i, path, w, p);
        assert [] + Excerpts(bs) == Excerpts(bs);
      }
    }
  }

  /** Reads before searches, and within a kind the order asked for. */
  predicate Precedes(a: Call, b: Call)
  {
    if a.tool == b.tool then a.index < b.index else a.tool == Read
  }

  ghost predicate InOrder(calls: seq<Call>)
  {
    forall i, j | 0 <= i < j < |calls| :: calls[i].index < calls[j].index
  }

  lemma {:induction false} CallsAreInOrder(requests: seq<Request>, tool: Tool, from: nat)
    requires from <= |requests|
    ensures InOrder(CallsOf(requests, tool, from))
    decreases |requests| - from
  {
    if from < |requests| {
      CallsAreInOrder(requests, tool, from + 1);
      CallsAreOfTheirKind(requests, tool, from + 1);
      var later := CallsOf(requests, tool, from + 1);
      FirstComesFirst(Call(from, tool), later);
      assert [] + later == later;
    }
  }

  lemma FirstComesFirst(c: Call, later: seq<Call>)
    requires InOrder(later) && forall d | d in later :: c.index < d.index
    ensures InOrder([c] + later)
  {
    var calls := [c] + later;
    forall i, j | 0 <= i < j < |calls| ensures calls[i].index < calls[j].index {
      assert calls[j] == later[j - 1] && later[j - 1] in later;
      assert i > 0 ==> calls[i] == later[i - 1];
    }
  }

  /** The plan is the batch, sorted: every request with a tool is called exactly once. */
  lemma PlanIsTheSortedBatch(requests: seq<Request>)
    ensures forall i, j | 0 <= i < j < |Plan(requests)| :: Precedes(Plan(requests)[i], Plan(requests)[j])
    ensures forall c :: c in Plan(requests) <==> c.index < |requests| && requests[c.index].tool == Some(c.tool)
  {
    var a, b := CallsOf(requests, Read, 0), CallsOf(requests, Search, 0);
    CallsAreInOrder(requests, Read, 0);
    CallsAreInOrder(requests, Search, 0);
    CallsAreOfTheirKind(requests, Read, 0);
    CallsAreOfTheirKind(requests, Search, 0);
    hide CallsOf;
    var plan := Plan(requests);
    assert plan == a + b;
    forall i | 0 <= i < |plan| ensures plan[i].tool == if i < |a| then Read else Search {
      assert if i < |a| then plan[i] in a else plan[i] == b[i - |a|] && b[i - |a|] in b;
    }
    forall i, j | 0 <= i < j < |plan| ensures Precedes(plan[i], plan[j]) {
      if j < |a| {
        assert a[i].index < a[j].index && plan[i] == a[i] && plan[j] == a[j];
      } else if i >= |a| {
        assert b[i - |a|].index < b[j - |a|].index && plan[i] == b[i - |a|] && plan[j] == b[j - |a|];
      }
    }
    forall c ensures c in plan <==> c.index < |requests| && requests[c.index].tool == Some(c.tool) {
      assert c in plan <==> c in a || c in b;
      if c.index < |requests| && requests[c.index].tool == Some(c.tool) {
        assert c == Call(c.index, c.tool);
        if c.tool == Read {
          assert Call(c.index, Read) in a;
        } else {
          assert Call(c.index, Search) in b;
        }
      }
    }
  }

  // ----- Receipts -----

  predicate Named(r: Receipt) { r.path != "" }

  predicate Receipted(e: Excerpt, rs: seq<Receipt>)
  {
    exists i | 0 <= i < |rs| :: rs[i].path == e.path && rs[i].content == e.content && Named(rs[i])
  }

  /** The receipts of a batch are one per source, and one for a call without any. */
  lemma {:induction false} ReceiptsAreDistinct(bs: seq<Batch>, w: World, p: Policy)
    requires WellChosen(Excerpts(bs), w, p)
    ensures forall i | 0 <= i < |Receipts(bs)| && Named(Receipts(bs)[i]) :: Receipts(bs)[i].path in Paths(Excerpts(bs))
    ensures forall i, j | 0 <= i < j < |Receipts(bs)| && Named(Receipts(bs)[i]) :: Receipts(bs)[i].path != Receipts(bs)[j].path
    ensures forall e | e in Excerpts(bs) :: Receipted(e, Receipts(bs))
  {
    if bs != [] {
      var b, rest := bs[0].admitted, Excerpts(bs[1..]);
      HalvesAreWellChosen(b, rest, w, p);
      ReceiptsAreDistinct(bs[1..], w, p);
      PathsOfJoin(b, rest);
      var own, later := ReceiptsOf(bs[0]), Receipts(bs[1..]);
      OwnReceipts(bs[0], w, p);
      hide WellChosen, ReceiptsOf, Excerpts, Receipts, Paths, Receipted;
      JoinedReceipts(own, later, Paths(b), Paths(rest));
      forall e | e in b + rest ensures Receipted(e, own + later) {
        assert e in b || e in rest;
        ReceiptsStay(e, own, later);
      }
    }
  }

  lemma ReceiptsStay(e: Excerpt, own: seq<Receipt>, later: seq<Receipt>)
    requires Receipted(e, own) || Receipted(e, later)
    ensures Receipted(e, own + later)
  {
    if Receipted(e, own) {
      var i :| 0 <= i < |own| && own[i].path == e.path && own[i].content == e.content && Named(own[i]);
      assert (own + later)[i] == own[i];
    } else {
      var i :| 0 <= i < |later| && later[i].path == e.path && later[i].content == e.content && Named(later[i]);
      assert (own + later)[|own| + i] == later[i];
    }
  }

  lemma JoinedReceipts(own: seq<Receipt>, later: seq<Receipt>, a: set<string>, b: set<string>)
    requires a !! b && "" !in a + b
    requires forall i | 0 <= i < |own| && Named(own[i]) :: own[i].path in a
    requires forall i | 0 <= i < |later| && Named(later[i]) :: later[i].path in b
    requires forall i, j | 0 <= i < j < |own| && Named(own[i]) :: own[i].path != own[j].path
    requires forall i, j | 0 <= i < j < |later| && Named(later[i]) :: later[i].path != later[j].path
    ensures forall i | 0 <= i < |own + later| && Named((own + later)[i]) :: (own + later)[i].path in a + b
    ensures forall i, j | 0 <= i < j < |own + later| && Named((own + later)[i]) :: (own + later)[i].path != (own + later)[j].path
  {
    var all := own + later;
    forall i | 0 <= i < |all| && Named(all[i]) ensures all[i].path in a + b {
      assert if i < |own| then all[i] == own[i] else all[i] == later[i - |own|];
    }
    forall i, j | 0 <= i < j < |all| && Named(all[i]) ensures all[i].path != all[j].path {
      assert i < |own| ==> all[i] == own[i];
      assert j >= |own| ==> all[j] == later[j - |own|];
      assert i >= |own| ==> all[i] == later[i - |own|];
      assert j < |own| ==> all[j] == own[j];
    }
  }

  lemma OwnReceipts(b: Batch, w: World, p: Policy)
    requires WellChosen(b.admitted, w, p)
    ensures var own := ReceiptsOf(b);
            && (forall i | 0 <= i < |own| && Named(own[i]) :: own[i].path in Paths(b.admitted))
            && (forall i, j | 0 <= i < j < |own| && Named(own[i]) :: own[i].path != own[j].path)
            && (forall e | e in b.admitted :: Receipted(e, own))
            && "" !in Paths(b.admitted)
  {
    var own := ReceiptsOf(b);
    forall e | e in b.admitted ensures Receipted(e, own) {
      var k :| 0 <= k < |b.admitted| && b.admitted[k] == e;
      assert own[k] in own && Sound(b.admitted[k], w, p);
    }
    forall i | 0 <= i < |own| && Named(own[i]) ensures own[i].path in Paths(b.admitted) {
      assert own[i].path == b.admitted[i].path && b.admitted[i] in b.admitted;
    }
    forall e | e in b.admitted ensures e.path != "" {
      var k :| 0 <= k < |b.admitted| && b.admitted[k] == e;
      assert Sound(b.admitted[k], w, p);
    }
  }

  lemma HalvesAreWellChosen(a: seq<Excerpt>, b: seq<Excerpt>, w: World, p: Policy)
    requires WellChosen(a + b, w, p)
    ensures WellChosen(a, w, p) && WellChosen(b, w, p) && Paths(a) !! Paths(b) && "" !in Paths(a) + Paths(b)
  {
    var all := a + b;
    assert forall i | 0 <= i < |a| :: all[i] == a[i];
    assert forall i | 0 <= i < |b| :: all[i + |a|] == b[i];
    hide Sound;
    forall i | 0 <= i < |a| ensures Sound(a[i], w, p) { assert Sound(all[i], w, p); }
    forall i | 0 <= i < |b| ensures Sound(b[i], w, p) { assert Sound(all[i + |a|], w, p); }
    forall e | e in a + b ensures e.path != "" {
      var i :| 0 <= i < |all| && all[i] == e;
      assert Sound(all[i], w, p);
      SoundIsNamed(e, w, p);
    }
    forall x, y | x in a && y in b ensures x.path != y.path {
      var i :| 0 <= i < |a| && a[i] == x;
      var j :| 0 <= j < |b| && b[j] == y;
      assert all[i].path != all[j + |a|].path;
    }
  }

  lemma SoundIsNamed(e: Excerpt, w: World, p: Policy)
    requires Sound(e, w, p)
    ensures e.path != ""
  {
  }

  function Kept(rs: seq<Receipt>, p: Policy): seq<Receipt>
  {
    rs[..Least(p.maxReceipts, |rs|)]
  }

  /** A source of the batch has its receipt among those kept exactly when that receipt
      comes before the cut: a policy that keeps few receipts leaves sources without one. */
  lemma ReceiptIsKeptExactly(bs: seq<Batch>, j: nat, w: World, p: Policy)
    requires WellChosen(Excerpts(bs), w, p)
    requires j < |Receipts(bs)| && Named(Receipts(bs)[j])
    ensures Receipts(bs)[j].path in Paths(Excerpts(bs))
    ensures (exists k | 0 <= k < |Kept(Receipts(bs), p)| :: Kept(Receipts(bs), p)[k].path == Receipts(bs)[j].path)
            <==> j < p.maxReceipts
  {
    ReceiptsAreDistinct(bs, w, p);
    hide WellChosen, Receipts, Excerpts;
    var rs := Receipts(bs);
    var kept := Kept(rs, p);
    if j < p.maxReceipts {
      assert kept[j] == rs[j];
    }
    if exists k | 0 <= k < |kept| :: kept[k].path == rs[j].path {
      var k :| 0 <= k < |kept| && kept[k].path == rs[j].path;
      assert rs[k].path == rs[j].path && Named(rs[k]);
    }
  }

  /** One search that finds two sources already loses a receipt when only one is kept. */
  lemma ReceiptsCanBeMissing(query: string, a: Excerpt, b: Excerpt, w: World, p: Policy)
    requires p.maxReceipts == 1 && p.maxSources >= 2
    requires Sound(a, w, p) && Sound(b, w, p) && a.path != b.path && w.finds(0) == [a, b]
    ensures var bs := Collected([Request(Some(Search), false, Query(query), None)], w, p);
            && Excerpts(bs) == [a, b]
            && Receipted(a, Kept(Receipts(bs), p)) && !Receipted(b, Kept(Receipts(bs), p))
  {
    var requests := [Request(Some(Search), false, Query(query), None)];
    assert CallsOf(requests, Read, 0) == [] && CallsOf(requests, Search, 0) == [Call(0, Search)] by {
      assert CallsOf(requests, Search, 1) == [] && CallsOf(requests, Read, 1) == [];
    }
    assert Plan(requests) == [Call(0, Search)];
    TwoFresh(a, b, w, p);
    assert w.finds(0) == [a, b];
    var batch := Batch(Call(0, Search), [a, b]);
    var bs := Collected(requests, w, p);
    assert Admit(0, Search, [], w, p) == [a, b] by { NoPaths(); }
    assert Gather([Call(0, Search)], [], w, p) == [batch];
    assert bs == [batch];
    assert Receipts(bs) == [ReceiptFor(Search, a), ReceiptFor(Search, b)];
    assert Kept(Receipts(bs), p) == [ReceiptFor(Search, a)];
    assert Receipted(a, [ReceiptFor(Search, a)]) by {
      assert [ReceiptFor(Search, a)][0].path == a.path;
    }
  }

  lemma TwoFresh(a: Excerpt, b: Excerpt, w: World, p: Policy)
    requires Sound(a, w, p) && Sound(b, w, p) && a.path != b.path
    ensures Fresh([a, b], {}, w, p) == [a, b]
  {
    hide Safe;
    assert Clip(a, p) == a && Clip(b, p) == b;
    assert [a, b][1..] == [b] && [b][1..] == [];
    assert Fresh([b], {a.path}, w, p) == [b] + Fresh([], {a.path} + {b.path}, w, p);
    assert Fresh([a, b], {}, w, p) == [a] + Fresh([b], {} + {a.path}, w, p);
    assert {} + {a.path} == {a.path};
  }

  /** With room for two receipts per request, every source has its receipt. */
  lemma EnoughRoomForReceipts(requests: seq<Request>, w: World, p: Policy, e: Excerpt)
    requires 2 * |Plan(requests)| <= p.maxReceipts
    requires e in Excerpts(Collected(requests, w, p))
    ensures Receipted(e, Kept(Receipts(Collected(requests, w, p)), p))
  {
    var bs := Collected(requests, w, p);
    CollectedIsWithinBudgets(requests, w, p);
    ReceiptsAreDistinct(bs, w, p);
    AtMostTwoReceipts(bs);
    hide WellChosen, Receipts, Excerpts, Gather, Plan;
    assert Kept(Receipts(bs), p) == Receipts(bs);
  }

  lemma {:induction false} AtMostTwoReceipts(bs: seq<Batch>)
    requires forall i | 0 <= i < |bs| :: |bs[i].admitted| <= 2
    ensures |Receipts(bs)| <= 2 * |bs|
  {
    if bs != [] {
      AtMostTwoReceipts(bs[1..]);
    }
  }

  // ----- The context of the next turn -----

  /** The items with a path, each path once, in order. */
  function Firsts(items: seq<Excerpt>, seen: set<string>): seq<Excerpt>
  {
    if items == [] then []
    else
      var path := Text.Strip(items[0].path);
      if path == "" || path in seen then Firsts(items[1..], seen)
      else [Excerpt(path, items[0].content)] + Firsts(items[1..], seen + {path})
  }

  lemma {:induction false} FirstsOneMore(items: seq<Excerpt>, i: nat, seen: set<string>)
    requires i < |items|
    ensures var front := Firsts(items[..i], seen);
            var path := Text.Strip(items[i].path);
            Firsts(items[..i + 1], seen)
            == front + if path == "" || path in seen + Paths(front) then [] else [Excerpt(path, items[i].content)]
  {
    hide Text.Strip, Paths;
    if i == 0 {
      assert items[..0] == [] && items[..1] == [items[0]] && [items[0]][1..] == [];
      NoPaths();
    } else {
      var rest := items[1..];
      assert items[..i][1..] == rest[..i - 1] && items[..i + 1][1..] == rest[..i] && items[i] == rest[i - 1];
      assert items[..i][0] == items[0] && items[..i + 1][0] == items[0];
      var h := Excerpt(Text.Strip(items[0].path), items[0].content);
      if h.path == "" || h.path in seen {
        FirstsOneMore(rest, i - 1, seen);
      } else {
        FirstsOneMore(rest, i - 1, seen + {h.path});
        var later := Firsts(rest[..i - 1], seen + {h.path});
        PathsOfJoin([h], later);
        OnePath(h);
        assert seen + {h.path} + Paths(later) == seen + Paths([h] + later);
      }
    }
  }

  lemma {:induction false} FirstsGrow(items: seq<Excerpt>, i: nat, seen: set<string>)
    requires i <= |items|
    ensures Firsts(items[..i], seen) <= Firsts(items, seen)
    decreases |items| - i
  {
    if i == |items| {
      assert items[..i] == items;
    } else {
      FirstsOneMore(items, i, seen);
      FirstsGrow(items, i + 1, seen);
    }
  }

  method MergeExcerpts(prior: seq<Excerpt>, current: seq<Excerpt>, maxTotal: nat) returns (merged: seq<Excerpt>)
    ensures merged == Take(Firsts(prior + current, {}), if maxTotal > 1 then maxTotal else 1)
  {
    hide Firsts, Paths;
    var items := prior + current;
    var seen: set<string> := {};
    merged := [];
    NoPaths();
    assert Firsts(items[..0], {}) == [] by { NoFirsts(items); }
    for k := 0 to |items|
      invariant merged == Firsts(items[..k], {})
      invariant seen == Paths(merged)
      invariant |merged| < if maxTotal > 1 then maxTotal else 1
    {
      FirstsOneMore(items, k, {});
      assert {} + Paths(merged) == Paths(merged);
      var path := Text.Strip(items[k].path);
      if path == "" || path in seen {
        continue;
      }
      PathsOfJoin(merged, [Excerpt(path, items[k].content)]);
      OnePath(Excerpt(path, items[k].content));
      merged := merged + [Excerpt(path, items[k].content)];
      seen := seen + {path};
      if |merged| >= (if maxTotal > 1 then maxTotal else 1) {
        FirstsGrow(items, k + 1, {});
        return;
      }
    }
    assert items[..|items|] == items;
  }

  lemma NoFirsts(items: seq<Excerpt>)
    ensures Firsts(items[..0], {}) == []
  {
  }

  function Total(es: seq<Excerpt>): nat
  {
    if es == [] then 0 else Total(es[..|es| - 1]) + |es[|es| - 1].content|
  }

  /** All contents, one after the other. */
  function AllText(es: seq<Excerpt>): string
  {
    if es == [] then "" else AllText(es[..|es| - 1]) + es[|es| - 1].content
  }

  /** The total is the length of all the text that is shown. */
  lemma {:induction false} TotalIsTheLengthOfAllText(es: seq<Excerpt>)
    ensures Total(es) == |AllText(es)|
  {
    if es != [] {
      TotalIsTheLengthOfAllText(es[..|es| - 1]);
    }
  }

  function Clips(es: seq<Excerpt>, p: Policy): seq<Excerpt>
  {
    seq(|es|, i requires 0 <= i < |es| => Clip(es[i], p))
  }

  /** The longest beginning of the items that fits the total. */
  ghost predicate LongestFit(bounded: seq<Excerpt>, items: seq<Excerpt>, maxTotal: nat)
  {
    && bounded <= items && Total(bounded) <= maxTotal
    && (|bounded| < |items| ==> Total(items[..|bounded| + 1]) > maxTotal)
  }

  method BoundExcerpts(combined: seq<Excerpt>, p: Policy) returns (bounded: seq<Excerpt>)
    ensures LongestFit(bounded, Clips(combined, p), p.maxTotal)
  {
    var total := 0;
    bounded := [];
    for k := 0 to |combined|
      invariant bounded == Clips(combined, p)[..k]
      invariant total == Total(bounded) <= p.maxTotal
    {
      var e := Clip(combined[k], p);
      var more := Clips(combined, p)[..k + 1];
      assert more[..k] == bounded && more[k] == e;
      if total + |e.content| > p.maxTotal {
        return;
      }
      bounded := bounded + [e];
      assert bounded == more;
      total := total + |e.content|;
    }
  }

  lemma SoundIsStripped(e: Excerpt, w: World, p: Policy)
    requires WellChosen([e], w, p)
    ensures e.path != "" && Text.Strip(e.path) == e.path && Clip(e, p) == e
  {
    assert Sound([e][0], w, p);
  }

  lemma {:induction false} FirstsKeepWellChosen(news: seq<Excerpt>, known: seq<Excerpt>, seen: set<string>, w: World, p: Policy)
    requires WellChosen(news, w, p) && Paths(news) !! seen
    ensures Firsts(news + known, seen) == news + Firsts(known, seen + Paths(news))
  {
    hide WellChosen, Paths, Text.Strip;
    if news == [] {
      NoPaths();
      assert news + known == known && seen + {} == seen;
    } else {
      var e, rest := news[0], news[1..];
      assert [e] + rest == news;
      HalvesAreWellChosen([e], rest, w, p);
      PathsOfJoin([e], rest);
      OnePath(e);
      SoundIsStripped(e, w, p);
      FirstsKeepWellChosen(rest, known, seen + {e.path}, w, p);
      var all := news + known;
      assert all[0] == e && all[1..] == rest + known;
      assert seen + {e.path} + Paths(rest) == seen + Paths(news);
      var later := Firsts(known, seen + Paths(news));
      assert [e] + (rest + later) == news + later;
    }
  }

  lemma {:induction false} TotalGrows(es: seq<Excerpt>, n: nat)
    requires n <= |es|
    ensures Total(es[..n]) <= Total(es)
    decreases |es|
  {
    if n == |es| {
      assert es[..n] == es;
    } else {
      TotalGrows(es[..|es| - 1], n);
      assert es[..|es| - 1][..n] == es[..n];
    }
  }

  /** What the next turn is shown, given what was just collected and what was known. */
  ghost predicate Context(shown: seq<Excerpt>, news: seq<Excerpt>, known: seq<Excerpt>, p: Policy)
  {
    LongestFit(shown, Clips(Take(Firsts(news + known, {}), p.maxSources + p.maxPrevious), p), p.maxTotal)
  }

  lemma ClipsOfWellChosen(news: seq<Excerpt>, w: World, p: Policy)
    requires WellChosen(news, w, p)
    ensures Clips(news, p) == news
  {
    forall i | 0 <= i < |news| ensures Clip(news[i], p) == news[i] {
      assert Sound(news[i], w, p);
    }
  }

  lemma NewEvidenceIsInFront(news: seq<Excerpt>, known: seq<Excerpt>, w: World, p: Policy)
    requires WellChosen(news, w, p) && |news| <= p.maxSources
    ensures news <= Clips(Take(Firsts(news + known, {}), p.maxSources + p.maxPrevious), p)
  {
    hide WellChosen, Paths, Firsts, Clip;
    FirstsKeepWellChosen(news, known, {}, w, p);
    ClipsOfWellChosen(news, w, p);
    var rest := Firsts(known, {} + Paths(news));
    var taken := Take(news + rest, p.maxSources + p.maxPrevious);
    forall i | 0 <= i < |news| ensures Clips(taken, p)[i] == news[i] {
      assert taken[i] == news[i] && Clips(news, p)[i] == Clip(news[i], p);
    }
  }

  lemma FitOfFront(shown: seq<Excerpt>, news: seq<Excerpt>, items: seq<Excerpt>, max: nat)
    requires LongestFit(shown, items, max) && news <= items
    ensures shown <= news || news <= shown
    ensures news <= shown <==> Total(news) <= max
  {
    assert shown == items[..|shown|] && news == items[..|news|];
    if |shown| < |news| {
      assert news[..|shown| + 1] == items[..|shown| + 1];
      TotalGrows(news, |shown| + 1);
      assert news[..|shown|] == shown;
    } else {
      assert shown[..|news|] == news;
      TotalGrows(shown, |news|);
    }
  }

  /** Known context never displaces new evidence: the new sources come first, all of
      them are shown exactly when they fit the total, and known ones only after them. */
  lemma NewEvidenceComesFirst(shown: seq<Excerpt>, news: seq<Excerpt>, known: seq<Excerpt>, w: World, p: Policy)
    requires WellChosen(news, w, p) && |news| <= p.maxSources
    requires Context(shown, news, known, p)
    ensures shown <= news || news <= shown
    ensures news <= shown <==> Total(news) <= p.maxTotal
    ensures Total(shown) <= p.maxTotal
  {
    hide WellChosen, Firsts, Clips, Take;
    NewEvidenceIsInFront(news, known, w, p);
    FitOfFront(shown, news, Clips(Take(Firsts(news + known, {}), p.maxSources + p.maxPrevious), p), p.maxTotal);
  }

  // ----- The session -----

  /** Sixty-four lower-case hexadecimal digits. */
  ghost predicate HexDigest(s: string)
  {
    |s| == 64 && forall i | 0 <= i < 64 :: '0' <= s[i] <= '9' || 'a' <= s[i] <= 'f'
  }

  lemma DigestsAreExact(s: string)
    ensures IsDigest(s) <==> HexDigest(s)
  {
    assert forall i | 0 <= i < |s| :: s[i] in s;
  }

  predicate IsDigest(s: string)
  {
    |s| == 64 && forall c | c in s :: 'a' <= c <= 'f' || '0' <= c <= '9'
  }

  class Session {
    var turns: nat
    var requestId: string
    var lastSource: string

    constructor (requestId: string)
      ensures turns == 0 && this.requestId == requestId && lastSource == ""
    {
      turns, this.requestId, lastSource := 0, requestId, "";
    }

    /** Serve one set of source requests and queue the next turn. An empty answer means
        that nothing was asked for; a refusal changes nothing. */
    method Continue(
      asked: seq<Request>, permitted: bool, known: seq<Excerpt>, newId: string, w: World, p: Policy)
      returns (r: Result<seq<Excerpt>>)
      requires p.Valid()
      modifies this
      ensures r == Ok([]) <==> asked == []
      ensures r.Err? || asked == [] ==>
                turns == old(turns) && requestId == old(requestId) && lastSource == old(lastSource)
      ensures r.Ok? && asked != [] ==>
                && turns == old(turns) + 1 <= p.maxTurns
                && lastSource == old(requestId) && requestId == newId != old(requestId)
                && Acceptable(asked, w, p)
                && Context(r.value, Excerpts(Collected(asked, w, p)), known, p)
      ensures r.Ok? && asked != [] <==>
                && asked != [] && permitted && old(turns) < p.maxTurns
                && HexDigest(old(requestId)) && old(requestId) != old(lastSource)
                && Acceptable(asked, w, p) && Excerpts(Collected(asked, w, p)) != []
                && |Excerpts(Collected(asked, w, p))[0].content| <= p.maxTotal
                && newId != old(requestId) && HexDigest(newId)
    {
      DigestsAreExact(requestId);
      DigestsAreExact(newId);
      hide Collected, IsDigest, HexDigest, Acceptable, Receipts, Excerpts, Context, Firsts;
      if asked == [] {
        return Ok([]);
      }
      if !permitted || turns >= p.maxTurns || !IsDigest(requestId) || lastSource == requestId {
        return Err(Refused);
      }
      var turn, calls := ExecuteTools(asked, w, p);
      if turn.Err? {
        return Err(turn.error);
      }
      var news := turn.value.excerpts;
      var combined := MergeExcerpts(news, known, p.maxSources + p.maxPrevious);
      var shown := BoundExcerpts(combined, p);
      assert Context(shown, news, known, p) by { AsContext(shown, news, known, p, combined); }
      ShownExactly(shown, news, known, asked, w, p);
      if shown == [] {
        return Err(TooLarge);
      }
      if newId == requestId || !IsDigest(newId) {
        return Err(NotNew);
      }
      lastSource, requestId, turns := requestId, newId, turns + 1;
      r := Ok(shown);
    }
  }

  lemma AsContext(shown: seq<Excerpt>, news: seq<Excerpt>, known: seq<Excerpt>, p: Policy, combined: seq<Excerpt>)
    requires combined == Take(Firsts(news + known, {}), p.maxSources + p.maxPrevious)
    requires LongestFit(shown, Clips(combined, p), p.maxTotal)
    ensures Context(shown, news, known, p)
  {
  }

  /** Something can be shown exactly when the first new source fits the total. */
  lemma ShownExactly(
    shown: seq<Excerpt>, news: seq<Excerpt>, known: seq<Excerpt>, asked: seq<Request>, w: World, p: Policy)
    requires p.Valid() && news == Excerpts(Collected(asked, w, p)) && news != []
    requires Context(shown, news, known, p)
    ensures shown != [] <==> |news[0].content| <= p.maxTotal
  {
    hide WellChosen, Firsts, Clips, Take, Gather, Plan, Excerpts;
    CollectedIsWithinBudgets(asked, w, p);
    NewEvidenceIsInFront(news, known, w, p);
    var items := Clips(Take(Firsts(news + known, {}), p.maxSources + p.maxPrevious), p);
    assert news[..1] <= items;
    FitOfFront(shown, news[..1], items, p.maxTotal);
    assert Total(news[..1]) == |news[0].content| by {
      assert news[..1][..0] == [];
    }
  }
}
