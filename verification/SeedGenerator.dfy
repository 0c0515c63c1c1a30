/** The seed generator: slugs, SQL string literals, and the endpoint list of a Swagger document. */
module SeedGeneratorModel {
  import opened Wrappers
  import Text

  // ---------- slugs ----------

  predicate Alnum(c: char) {
    'a' <= c <= 'z' || '0' <= c <= '9'
  }

  function Lower(s: string): (r: string)
    ensures |r| == |s|
  {
    seq(|s|, i requires 0 <= i < |s| => if 'A' <= s[i] <= 'Z' then s[i] - 'A' + 'a' else s[i])
  }

  /** `re.sub(r"[^a-z0-9]+", "-", s)`: one hyphen for each maximal run of other characters. */
  function Collapse(s: string, inRun: bool): string {
    if s == "" then ""
    else if Alnum(s[0]) then [s[0]] + Collapse(s[1..], false)
    else (if inRun then "" else "-") + Collapse(s[1..], true)
  }

  function StripStart(s: string): string {
    if s != "" && s[0] == '-' then StripStart(s[1..]) else s
  }

  function StripEnd(s: string): string {
    if s != "" && s[|s| - 1] == '-' then StripEnd(s[..|s| - 1]) else s
  }

  function Slugify(value: string): string {
    StripEnd(StripStart(Collapse(Lower(Text.Trim(value)), false)))
  }

  /** Alphanumeric runs joined by single hyphens. */
  predicate IsSlug(s: string) {
    && Hyphenated(s)
    && (s != "" ==> s[0] != '-' && s[|s| - 1] != '-')
  }

  /** Alphanumerics and hyphens, no two hyphens together. */
  predicate Hyphenated(s: string) {
    && (forall i :: 0 <= i < |s| ==> Alnum(s[i]) || s[i] == '-')
    && (forall i :: 0 < i < |s| ==> s[i - 1] != '-' || s[i] != '-')
  }

  lemma {:induction false} CollapseHyphenated(s: string, inRun: bool)
    ensures Hyphenated(Collapse(s, inRun))
    ensures inRun && Collapse(s, inRun) != "" ==> Collapse(s, inRun)[0] != '-'
  {
    if s != "" {
      CollapseHyphenated(s[1..], !Alnum(s[0]));
    }
  }

  lemma {:induction false} StripStartHyphenated(s: string)
    requires Hyphenated(s)
    ensures Hyphenated(StripStart(s)) && (StripStart(s) != "" ==> StripStart(s)[0] != '-')
  {
    if s != "" && s[0] == '-' {
      StripStartHyphenated(s[1..]);
    }
  }

  lemma {:induction false} StripEndHyphenated(s: string)
    requires Hyphenated(s) && (s != "" ==> s[0] != '-')
    ensures IsSlug(StripEnd(s))
  {
    if s != "" && s[|s| - 1] == '-' {
      StripEndHyphenated(s[..|s| - 1]);
    }
  }

  lemma SlugifyGivesSlug(value: string)
    ensures IsSlug(Slugify(value))
    ensures forall c :: c in Slugify(value) ==> 97 <= c as int <= 122 || 48 <= c as int <= 57 || c as int == 45
  {
    var c := Collapse(Lower(Text.Trim(value)), false);
    CollapseHyphenated(Lower(Text.Trim(value)), false);
    StripStartHyphenated(c);
    StripEndHyphenated(StripStart(c));
  }

  lemma {:induction false} CollapseKeeps(s: string, inRun: bool)
    requires Hyphenated(s) && (s != "" && inRun ==> s[0] != '-')
    ensures Collapse(s, inRun) == s
  {
    if s != "" {
      CollapseKeeps(s[1..], !Alnum(s[0]));
      assert s == [s[0]] + s[1..];
    }
  }

  /** The fixed points of `slugify` are exactly the slugs; so it is idempotent. */
  lemma SlugifyFixes(s: string)
    ensures Slugify(s) == s <==> IsSlug(s)
    ensures Slugify(Slugify(s)) == Slugify(s)
  {
    SlugifyGivesSlug(s);
    SlugUnchanged(Slugify(s));
    if IsSlug(s) {
      SlugUnchanged(s);
    }
  }

  lemma SlugUnchanged(s: string)
    requires IsSlug(s)
    ensures Slugify(s) == s
  {
    assert Text.Trim(s) == s;
    assert Lower(s) == s;
    CollapseKeeps(s, false);
  }

  /** The small letters and digits of a text, in order. */
  function Letters(s: string): string {
    if s == "" then "" else (if Alnum(s[0]) then [s[0]] else "") + Letters(s[1..])
  }

  /** The letters and digits of a text, in order, each letter small. */
  function SmallLetters(s: string): string {
    if s == "" then ""
    else
      var c := s[0] as int;
      (if 65 <= c <= 90 then [(c + 32) as char] else if 97 <= c <= 122 || 48 <= c <= 57 then [s[0]] else "")
        + SmallLetters(s[1..])
  }

  lemma {:induction false} LettersAre(s: string)
    ensures Letters(Lower(s)) == SmallLetters(s)
  {
    if s != "" {
      LettersAre(s[1..]);
      assert Lower(s)[1..] == Lower(s[1..]);
    }
  }

  lemma {:induction false} LettersJoin(a: string, b: string)
    ensures Letters(a + b) == Letters(a) + Letters(b)
  {
    hide Alnum;
    if a == "" {
      assert a + b == b;
    } else {
      assert (a + b)[1..] == a[1..] + b;
      LettersJoin(a[1..], b);
      var head := if Alnum(a[0]) then [a[0]] else "";
      assert head + (Letters(a[1..]) + Letters(b)) == (head + Letters(a[1..])) + Letters(b);
    }
  }

  lemma {:induction false} CollapseKeepsLetters(s: string, inRun: bool)
    ensures Letters(Collapse(s, inRun)) == Letters(s)
  {
    if s != "" {
      CollapseKeepsLetters(s[1..], !Alnum(s[0]));
      var rest := Collapse(s[1..], !Alnum(s[0]));
      if !Alnum(s[0]) && !inRun {
        assert ("-" + rest)[1..] == rest;
      } else if Alnum(s[0]) {
        assert ([s[0]] + rest)[1..] == rest;
      } else {
        assert "" + rest == rest;
      }
    }
  }

  lemma {:induction false} StripKeepsLetters(s: string)
    ensures Letters(StripStart(s)) == Letters(s) && Letters(StripEnd(s)) == Letters(s)
    decreases |s|
  {
    if s != "" {
      if s[0] == '-' {
        StripKeepsLetters(s[1..]);
      }
      if s[|s| - 1] == '-' {
        var front := s[..|s| - 1];
        StripKeepsLetters(front);
        assert s == front + "-";
        LettersJoin(front, "-");
        assert Letters("-") == "";
      }
    }
  }

  lemma {:induction false} TrimStartKeepsLetters(s: string)
    ensures Letters(Lower(Text.TrimStart(s))) == Letters(Lower(s))
  {
    if s != "" && Text.IsSpace(s[0]) {
      TrimStartKeepsLetters(s[1..]);
      assert Lower(s)[1..] == Lower(s[1..]);
    }
  }

  lemma {:induction false} TrimEndKeepsLetters(s: string)
    ensures Letters(Lower(Text.TrimEnd(s))) == Letters(Lower(s))
  {
    if s != "" && Text.IsSpace(s[|s| - 1]) {
      var front := s[..|s| - 1];
      TrimEndKeepsLetters(front);
      var last := Lower(s)[|s| - 1..];
      assert Letters(last) == "";
      hide Text.TrimStart, Letters;
      assert Lower(s) == Lower(front) + last;
      LettersJoin(Lower(front), last);
    }
  }

  /** No letter or digit is lost, added or moved: only their case and what stands between them changes. */
  lemma SlugifyKeepsLetters(value: string)
    ensures Letters(Slugify(value)) == Letters(Lower(value)) == SmallLetters(value)
  {
    LettersAre(value);
    hide SmallLetters;
    var t := Text.Trim(value);
    var c := Collapse(Lower(t), false);
    TrimStartKeepsLetters(value);
    TrimEndKeepsLetters(Text.TrimStart(value));
    CollapseKeepsLetters(Lower(t), false);
    StripKeepsLetters(c);
    StripKeepsLetters(StripStart(c));
  }

  // ---------- SQL string literals ----------

  const QUOTE := '\''

  function Doubled(v: string): string {
    if v == "" then "" else (if v[0] == QUOTE then [QUOTE, QUOTE] else [v[0]]) + Doubled(v[1..])
  }

  function SqlQuote(v: string): string {
    [QUOTE] + Doubled(v) + [QUOTE]
  }

  /** The standard lexer after the opening quote: the literal's value and what follows it. */
  function LexBody(s: string): Option<(string, string)> {
    if s == "" then None
    else if s[0] != '\'' then Prefixed(s[0], LexBody(s[1..]))
    else if |s| > 1 && s[1] == '\'' then Prefixed('\'', LexBody(s[2..]))
    else Some(("", s[1..]))
  }

  function Prefixed(c: char, r: Option<(string, string)>): Option<(string, string)> {
    if r.Some? then Some(([c] + r.value.0, r.value.1)) else None
  }

  function LexLiteral(s: string): Option<(string, string)> {
    if s != "" && s[0] == '\'' then LexBody(s[1..]) else None
  }

  lemma {:induction false} LexDoubled(v: string, rest: string)
    requires rest == "" || rest[0] != QUOTE
    ensures LexBody(Doubled(v) + [QUOTE] + rest) == Some((v, rest))
  {
    var s := Doubled(v) + [QUOTE] + rest;
    if v == "" {
      assert s[1..] == rest;
    } else {
      LexDoubled(v[1..], rest);
      var tail := Doubled(v[1..]) + [QUOTE] + rest;
      if v[0] == QUOTE {
        assert s[2..] == tail;
      } else {
        assert s[1..] == tail;
      }
      assert [v[0]] + v[1..] == v;
    }
  }

  /** A quote right after the literal is swallowed into it. */
  lemma {:induction false} LexSwallows(v: string, rest: string)
    requires rest != "" && rest[0] == QUOTE
    ensures LexBody(Doubled(v) + [QUOTE] + rest).Some? ==>
      |LexBody(Doubled(v) + [QUOTE] + rest).value.0| > |v|
  {
    var s := Doubled(v) + [QUOTE] + rest;
    if v == "" {
      assert s[0] == QUOTE && s[1] == rest[0];
    } else {
      LexSwallows(v[1..], rest);
      var tail := Doubled(v[1..]) + [QUOTE] + rest;
      if v[0] == QUOTE {
        assert s[2..] == tail;
      } else {
        assert s[1..] == tail;
      }
    }
  }

  /** The quoted text is read back as one literal of the value, exactly when no further quote follows it directly. */
  lemma QuoteLexes(v: string, rest: string)
    ensures LexLiteral(SqlQuote(v) + rest) == Some((v, rest)) <==> rest == "" || rest[0] != '\''
  {
    var s := SqlQuote(v) + rest;
    assert s[1..] == Doubled(v) + [QUOTE] + rest;
    if rest == "" || rest[0] != QUOTE {
      LexDoubled(v, rest);
    } else {
      LexSwallows(v, rest);
    }
  }

  // ---------- the endpoints of a document ----------

  /** One operation of a path item; absent texts are "". */
  datatype Operation = Operation(verb: string, operationId: string, summary: string)
  datatype PathItem = PathItem(path: string, operations: seq<Operation>)
  datatype SeedEndpoint = SeedEndpoint(endpointName: string, httpMethod: string, relativePath: string)

  /** An operation that is kept, with its path. */
  datatype Listed = Listed(path: string, op: Operation)

  predicate Allowed(op: Operation) {
    Lower(op.verb) in {"get", "post", "put", "patch", "delete", "head", "options"}
  }

  function Kept(path: string, ops: seq<Operation>): seq<Listed> {
    if ops == [] then []
    else
      var last := ops[|ops| - 1];
      Kept(path, ops[..|ops| - 1]) + (if Allowed(last) then [Listed(path, last)] else [])
  }

  /** The (path, allowed method) pairs, in document order. */
  function Listing(paths: seq<PathItem>): seq<Listed> {
    if paths == [] then []
    else Listing(paths[..|paths| - 1]) + Kept(paths[|paths| - 1].path, paths[|paths| - 1].operations)
  }

  function Either(a: string, b: string): string {
    if a != "" then a else b
  }

  /** The slug an operation is named by, before it is told apart from its namesakes. */
  function Base(x: Listed): string {
    var plain := Text.ToUpper(x.op.verb) + " " + x.path;
    Either(Slugify(Either(x.op.operationId, Either(x.op.summary, plain))), Slugify(plain))
  }

  /** How many of the first n operations have a given base. */
  function Count(xs: seq<Listed>, n: nat, base: string): nat
    requires n <= |xs|
  {
    if n == 0 then 0 else Count(xs, n - 1, base) + (if Base(xs[n - 1]) == base then 1 else 0)
  }

  function Rank(xs: seq<Listed>, i: nat): nat
    requires i < |xs|
  {
    Count(xs, i + 1, Base(xs[i]))
  }

  function Suffixed(base: string, k: nat): string {
    base + "-" + Text.Numeral(k)
  }

  function FullName(xs: seq<Listed>, i: nat): string
    requires i < |xs|
  {
    if Rank(xs, i) > 1 then Suffixed(Base(xs[i]), Rank(xs, i)) else Base(xs[i])
  }

  function Truncated(s: string): string {
    if |s| <= 100 then s else s[..100]
  }

  function SeedOf(xs: seq<Listed>, i: nat): SeedEndpoint
    requires i < |xs|
  {
    SeedEndpoint(Truncated(FullName(xs, i)), Text.ToUpper(xs[i].op.verb), xs[i].path)
  }

  /** The first n endpoints, one for each listed operation. */
  function Seeds(xs: seq<Listed>, n: nat): seq<SeedEndpoint>
    requires n <= |xs|
  {
    seq(n, i requires 0 <= i < n => SeedOf(xs, i))
  }

  /** The counters agree with the operations listed so far. */
  ghost predicate Counted(counts: map<string, nat>, xs: seq<Listed>) {
    forall b: string :: (if b in counts then counts[b] else 0) == Count(xs, |xs|, b)
  }

  lemma {:induction false} CountPrefix(xs: seq<Listed>, more: seq<Listed>, n: nat, base: string)
    requires n <= |xs|
    ensures Count(xs + more, n, base) == Count(xs, n, base)
  {
    hide Base;
    if n > 0 {
      CountPrefix(xs, more, n - 1, base);
    }
  }

  lemma CountExtended(xs: seq<Listed>, x: Listed, b: string)
    ensures Count(xs + [x], |xs| + 1, b) == Count(xs, |xs|, b) + (if Base(x) == b then 1 else 0)
  {
    hide Base;
    CountPrefix(xs, [x], |xs|, b);
  }

  lemma SeedPrefix(xs: seq<Listed>, x: Listed, i: nat)
    requires i < |xs|
    ensures SeedOf(xs + [x], i) == SeedOf(xs, i)
  {
    hide Base, Count;
    CountPrefix(xs, [x], i + 1, Base(xs[i]));
  }

  lemma SeedsExtended(xs: seq<Listed>, x: Listed)
    ensures Seeds(xs + [x], |xs| + 1) == Seeds(xs, |xs|) + [SeedOf(xs + [x], |xs|)]
  {
    hide SeedOf;
    forall i | 0 <= i < |xs| ensures SeedOf(xs + [x], i) == SeedOf(xs, i) {
      SeedPrefix(xs, x, i);
    }
  }

  /** Add one operation's endpoint, counting its name. */
  method AddEndpoint(ghost xs: seq<Listed>, x: Listed, seeds: seq<SeedEndpoint>, counts: map<string, nat>)
    returns (seeds': seq<SeedEndpoint>, counts': map<string, nat>)
    requires seeds == Seeds(xs, |xs|) && Counted(counts, xs)
    ensures seeds' == Seeds(xs + [x], |xs| + 1) && Counted(counts', xs + [x])
  {
    hide Base, Count;
    SeedsExtended(xs, x);
    forall b: string
      ensures Count(xs + [x], |xs| + 1, b) == Count(xs, |xs|, b) + (if Base(x) == b then 1 else 0)
    {
      CountExtended(xs, x, b);
    }
    var name := Base(x);
    var count := (if name in counts then counts[name] else 0) + 1;
    counts' := counts[name := count];
    if count > 1 {
      name := Suffixed(name, count);
    }
    seeds' := seeds + [SeedEndpoint(Truncated(name), Text.ToUpper(x.op.verb), x.path)];
  }

  /** One of the seven methods, in any case. */
  lemma AllowedIff(op: Operation)
    ensures Allowed(op) <==> Text.ToUpper(op.verb) in {"GET", "POST", "PUT", "PATCH", "DELETE", "HEAD", "OPTIONS"}
  {
    var v := op.verb;
    CaseFor(v, "get", "GET");
    CaseFor(v, "post", "POST");
    CaseFor(v, "put", "PUT");
    CaseFor(v, "patch", "PATCH");
    CaseFor(v, "delete", "DELETE");
    CaseFor(v, "head", "HEAD");
    CaseFor(v, "options", "OPTIONS");
    hide Lower, Text.ToUpper;
  }

  lemma CaseFor(v: string, small: string, large: string)
    requires |small| == |large| && forall i :: 0 <= i < |small| ==> 'a' <= small[i] <= 'z' && large[i] == small[i] - 'a' + 'A'
    ensures Lower(v) == small <==> Text.ToUpper(v) == large
  {
    if Lower(v) == small {
      forall i | 0 <= i < |v| ensures Text.ToUpper(v)[i] == large[i] {
        assert Lower(v)[i] == small[i];
      }
    }
    if Text.ToUpper(v) == large {
      forall i | 0 <= i < |v| ensures Lower(v)[i] == small[i] {
        assert Text.ToUpper(v)[i] == large[i];
      }
    }
  }

  /** An operation is named by its id, else its summary, else its method and path; by these too if nothing is left of it. */
  ghost predicate NamedBy(x: Listed, slug: string) {
    var plain := Text.ToUpper(x.op.verb) + " " + x.path;
    var text := if x.op.operationId != "" then x.op.operationId else if x.op.summary != "" then x.op.summary else plain;
    slug == if Slugify(text) != "" then Slugify(text) else Slugify(plain)
  }

  /** The entry of an operation: its own method in capitals, its own path, and its slug, the first time it occurs. */
  ghost predicate EntryOf(xs: seq<Listed>, i: nat, seed: SeedEndpoint)
    requires i < |xs|
  {
    var x := xs[i];
    && seed.httpMethod == Text.ToUpper(x.op.verb) && seed.relativePath == x.path
    && exists slug :: NamedBy(x, slug) && NamedIfFirst(xs, i, slug, seed)
  }

  ghost predicate NamedIfFirst(xs: seq<Listed>, i: nat, slug: string, seed: SeedEndpoint)
    requires i < |xs|
  {
    (forall j :: 0 <= j < i ==> !NamedBy(xs[j], slug)) ==>
      seed.endpointName == if |slug| <= 100 then slug else slug[..100]
  }

  lemma {:induction false} CountsNone(xs: seq<Listed>, n: nat, slug: string)
    requires n <= |xs| && forall j :: 0 <= j < n ==> !NamedBy(xs[j], slug)
    ensures Count(xs, n, slug) == 0
  {
    hide Base, NamedBy;
    if n > 0 {
      CountsNone(xs, n - 1, slug);
      BaseNames(xs[n - 1]);
    }
  }

  lemma BaseNames(x: Listed)
    ensures forall slug :: NamedBy(x, slug) <==> slug == Base(x)
  {
    hide Slugify;
  }

  lemma SeedIsEntry(xs: seq<Listed>, i: nat)
    requires i < |xs|
    ensures EntryOf(xs, i, SeedOf(xs, i))
  {
    var slug := Base(xs[i]);
    BaseNames(xs[i]);
    FirstIsNamed(xs, i);
    hide NamedBy, Base, NamedIfFirst, Count;
    assert NamedBy(xs[i], slug) && NamedIfFirst(xs, i, slug, SeedOf(xs, i));
  }

  lemma FirstIsNamed(xs: seq<Listed>, i: nat)
    requires i < |xs|
    ensures NamedIfFirst(xs, i, Base(xs[i]), SeedOf(xs, i))
  {
    hide NamedBy, Base;
    if forall j :: 0 <= j < i ==> !NamedBy(xs[j], Base(xs[i])) {
      CountsNone(xs, i, Base(xs[i]));
      hide *;
      FirstHasSlug(xs, i);
    }
  }

  lemma FirstHasSlug(xs: seq<Listed>, i: nat)
    requires i < |xs| && Count(xs, i, Base(xs[i])) == 0
    ensures SeedOf(xs, i).endpointName == if |Base(xs[i])| <= 100 then Base(xs[i]) else Base(xs[i])[..100]
  {
    hide Base;
  }

  /** What is listed is every operation of one of the seven methods, under its own path. */
  lemma {:induction false} KeptIff(path: string, ops: seq<Operation>, x: Listed)
    ensures x in Kept(path, ops) <==>
      x.path == path && x.op in ops && Text.ToUpper(x.op.verb) in {"GET", "POST", "PUT", "PATCH", "DELETE", "HEAD", "OPTIONS"}
    decreases |ops|
  {
    hide Allowed, Text.ToUpper;
    if ops != [] {
      var front, last := ops[..|ops| - 1], ops[|ops| - 1];
      assert ops == front + [last];
      KeptIff(path, front, x);
      AllowedIff(last);
    }
  }

  ghost predicate Lists(item: PathItem, x: Listed) {
    && x.path == item.path && x.op in item.operations
    && Text.ToUpper(x.op.verb) in {"GET", "POST", "PUT", "PATCH", "DELETE", "HEAD", "OPTIONS"}
  }

  lemma {:induction false} ListingIff(paths: seq<PathItem>, x: Listed)
    ensures x in Listing(paths) <==> exists item :: item in paths && Lists(item, x)
    decreases |paths|
  {
    if paths != [] {
      var front, last := paths[..|paths| - 1], paths[|paths| - 1];
      ListingIff(front, x);
      KeptIff(last.path, last.operations, x);
      hide Kept, Text.ToUpper;
      assert x in Listing(paths) <==> x in Listing(front) || Lists(last, x);
      hide Lists, Listing;
      assert forall item :: item in paths <==> item in front || item == last by {
        assert paths == front + [last];
      }
    }
  }

  lemma AllListed(paths: seq<PathItem>)
    ensures forall x :: x in Listing(paths) <==> exists item :: item in paths && Lists(item, x)
  {
    hide Listing, Lists;
    forall x ensures x in Listing(paths) <==> exists item :: item in paths && Lists(item, x) {
      ListingIff(paths, x);
    }
  }

  lemma AllEntries(xs: seq<Listed>)
    ensures |Seeds(xs, |xs|)| == |xs| && forall i :: 0 <= i < |xs| ==> EntryOf(xs, i, Seeds(xs, |xs|)[i])
  {
    hide SeedOf, EntryOf;
    forall i | 0 <= i < |xs| ensures EntryOf(xs, i, Seeds(xs, |xs|)[i]) {
      SeedIsEntry(xs, i);
    }
  }

  method BuildEndpoints(paths: seq<PathItem>) returns (seeds: seq<SeedEndpoint>)
    ensures seeds == Seeds(Listing(paths), |Listing(paths)|)
    ensures forall x :: x in Listing(paths) <==> exists item :: item in paths && Lists(item, x)
    ensures forall i :: 0 <= i < |seeds| ==> EntryOf(Listing(paths), i, seeds[i])
  {
    AllListed(paths);
    AllEntries(Listing(paths));
    hide EntryOf, Lists;
    hide Seeds, Counted, Allowed;
    seeds := [];
    var counts: map<string, nat> := map[];
    NothingListed();
    ghost var xs: seq<Listed> := [];
    for i := 0 to |paths|
      invariant xs == Listing(paths[..i])
      invariant seeds == Seeds(xs, |xs|) && Counted(counts, xs)
    {
      assert paths[..i + 1][..i] == paths[..i];
      var ops := paths[i].operations;
      ghost var before := xs;
      for j := 0 to |ops|
        invariant xs == before + Kept(paths[i].path, ops[..j])
        invariant seeds == Seeds(xs, |xs|) && Counted(counts, xs)
      {
        assert ops[..j + 1][..j] == ops[..j];
        if Allowed(ops[j]) {
          var x := Listed(paths[i].path, ops[j]);
          seeds, counts := AddEndpoint(xs, x, seeds, counts);
          assert before + (Kept(paths[i].path, ops[..j]) + [x]) == xs + [x];
          xs := xs + [x];
        }
      }
      assert ops[..|ops|] == ops;
    }
    assert paths[..|paths|] == paths;
  }

  lemma NothingListed()
    ensures Seeds([], 0) == [] && Counted(map[], [])
  {
  }

  // ---------- when the names are distinct ----------

  lemma {:induction false} CountGrows(xs: seq<Listed>, i: nat, j: nat, base: string)
    requires i <= j <= |xs|
    ensures Count(xs, i, base) <= Count(xs, j, base)
    decreases j
  {
    hide Base;
    if i < j {
      CountGrows(xs, i, j - 1, base);
    }
  }

  /** Namesakes are ranked in order. */
  lemma RanksDiffer(xs: seq<Listed>, i: nat, j: nat)
    requires i < j < |xs| && Base(xs[i]) == Base(xs[j])
    ensures Rank(xs, i) < Rank(xs, j)
  {
    hide Base;
    CountGrows(xs, i + 1, j, Base(xs[i]));
  }

  /** A name that occurs has a first occurrence, ranked one. */
  lemma {:induction false} FirstOccurrence(xs: seq<Listed>, i: nat) returns (j: nat)
    requires i < |xs|
    ensures j <= i && Base(xs[j]) == Base(xs[i]) && Rank(xs, j) == 1
    decreases i
  {
    if Count(xs, i, Base(xs[i])) == 0 {
      j := i;
    } else {
      var k := LastBefore(xs, i, Base(xs[i]));
      j := FirstOccurrence(xs, k);
    }
  }

  lemma {:induction false} LastBefore(xs: seq<Listed>, n: nat, base: string) returns (k: nat)
    requires n <= |xs| && Count(xs, n, base) > 0
    ensures k < n && Base(xs[k]) == base
  {
    hide Base;
    if Base(xs[n - 1]) == base {
      k := n - 1;
    } else {
      k := LastBefore(xs, n - 1, base);
    }
  }

  /** Some operation's plain slug is what another one gets with its number. */
  ghost predicate Clash(xs: seq<Listed>) {
    exists i: nat, j: nat :: ClashAt(xs, i, j)
  }

  ghost predicate ClashAt(xs: seq<Listed>, i: nat, j: nat) {
    i < |xs| && j < |xs| && Rank(xs, j) > 1 && Base(xs[i]) == Suffixed(Base(xs[j]), Rank(xs, j))
  }

  ghost predicate DistinctNames(xs: seq<Listed>) {
    forall i: nat, j: nat :: !SameFullName(xs, i, j)
  }

  predicate SameFullName(xs: seq<Listed>, i: nat, j: nat) {
    i < j < |xs| && FullName(xs, i) == FullName(xs, j)
  }

  lemma SuffixedInjective(a: string, k: nat, b: string, l: nat)
    requires Suffixed(a, k) == Suffixed(b, l)
    ensures a == b && k == l
  {
    assert '-' !in Text.Numeral(k) && '-' !in Text.Numeral(l);
    assert Suffixed(a, k) == a + ['-'] + Text.Numeral(k) && Suffixed(b, l) == b + ['-'] + Text.Numeral(l);
    Text.SplitAtLast(a, Text.Numeral(k), b, Text.Numeral(l), '-');
    Text.NumeralInjective(k, l);
  }

  lemma SameNameClashes(xs: seq<Listed>, i: nat, j: nat)
    requires i < j < |xs| && FullName(xs, i) == FullName(xs, j)
    ensures ClashAt(xs, i, j) || ClashAt(xs, j, i)
  {
    hide Base, Rank, Suffixed;
    RankPositive(xs, i);
    RankPositive(xs, j);
    if Rank(xs, i) > 1 && Rank(xs, j) > 1 {
      SuffixedInjective(Base(xs[i]), Rank(xs, i), Base(xs[j]), Rank(xs, j));
      RanksDiffer(xs, i, j);
    } else if Base(xs[i]) == Base(xs[j]) {
      RanksDiffer(xs, i, j);
    }
  }

  /** The names given to the operations are pairwise distinct exactly when no plain slug clashes with a numbered one. */
  lemma DistinctIff(xs: seq<Listed>)
    ensures DistinctNames(xs) <==> !Clash(xs)
  {
    hide Base, Rank, Suffixed;
    if Clash(xs) {
      var i: nat, j: nat :| ClashAt(xs, i, j);
      var f := FirstOccurrence(xs, i);
      assert FullName(xs, f) == Base(xs[f]) == FullName(xs, j);
      assert SameFullName(xs, f, j) || SameFullName(xs, j, f);
    }
    if !DistinctNames(xs) {
      var i: nat, j: nat :| SameFullName(xs, i, j);
      SameNameClashes(xs, i, j);
    }
  }

  /** No operation that is kept goes without a name. */
  lemma NameNotEmpty(x: Listed)
    requires Allowed(x.op)
    ensures Base(x) != "" && IsSlug(Base(x))
  {
    var plain := Text.ToUpper(x.op.verb) + " " + x.path;
    SlugifyGivesSlug(Either(x.op.operationId, Either(x.op.summary, plain)));
    SlugifyGivesSlug(plain);
    SlugifyKeepsLetters(plain);
    hide Slugify, IsSlug;
    assert |x.op.verb| == |Lower(x.op.verb)| > 0;
    assert Lower(x.op.verb)[0] in {'g', 'p', 'd', 'h', 'o'};
    assert Alnum(Lower(plain)[0]);
    assert Letters(Lower(plain)) != "";
    assert Letters("") == "";
  }

  lemma RankPositive(xs: seq<Listed>, i: nat)
    requires i < |xs|
    ensures Rank(xs, i) >= 1
  {
  }

  // ---------- truncation to the column ----------

  /** The name stored for the k-th operation of a slug. */
  function Stored(b: string, k: nat): string {
    Truncated(if k > 1 then Suffixed(b, k) else b)
  }

  function First(s: string, n: nat): string {
    if |s| <= n then s else s[..n]
  }

  /** Two operations of one slug: it fills the column, or their numbers agree on the digits there is room for. */
  predicate NamesakesCut(b: string, k: nat, l: nat) {
    || |b| >= 100
    || (k > 1 && l > 1 && First(Text.Numeral(k), 99 - |b|) == First(Text.Numeral(l), 99 - |b|))
  }

  /** A slug's first 100 characters are a shorter slug, a hyphen and as much of a number as there is room for. */
  predicate NumberedAs(a: string, b: string, l: nat) {
    |a| >= 100 > |b| && l > 1 && a[..100] == b + "-" + First(Text.Numeral(l), 99 - |b|)
  }

  /** Operations of two slugs: one is the other with its number, or they are alike as far as the column goes. */
  predicate OthersCollide(a: string, k: nat, b: string, l: nat) {
    || (k <= 1 && l > 1 && a == Suffixed(b, l))
    || (l <= 1 && k > 1 && b == Suffixed(a, k))
    || (|a| >= 100 && |b| >= 100 && a[..100] == b[..100])
    || NumberedAs(a, b, l)
    || NumberedAs(b, a, k)
  }

  lemma CutSuffixed(b: string, k: nat)
    ensures |b| >= 100 ==> Truncated(Suffixed(b, k)) == b[..100]
    ensures |b| < 100 ==> Truncated(Suffixed(b, k)) == b + "-" + First(Text.Numeral(k), 99 - |b|)
  {
    if |b| >= 100 {
      assert Suffixed(b, k)[..100] == b[..100];
    } else if |Suffixed(b, k)| > 100 {
      assert Suffixed(b, k)[..100] == b + "-" + Text.Numeral(k)[..99 - |b|];
    }
  }

  lemma StoredIs(b: string, k: nat)
    ensures |b| >= 100 ==> Stored(b, k) == b[..100]
    ensures |b| < 100 && k <= 1 ==> Stored(b, k) == b
    ensures |b| < 100 && k > 1 ==> Stored(b, k) == b + "-" + First(Text.Numeral(k), 99 - |b|)
  {
    CutSuffixed(b, k);
    hide Suffixed, First;
    if |b| == 100 {
      assert b[..100] == b;
    }
  }

  lemma AfterHyphen(b: string, x: string, y: string)
    ensures b + "-" + x != b
    ensures b + "-" + x == b + "-" + y <==> x == y
  {
    var n := |b| + 1;
    assert (b + "-" + x)[n..] == x && (b + "-" + y)[n..] == y;
  }

  /** Cut numbers hold no hyphen, so what stands before the last one is the slug. */
  lemma SlugBeforeNumber(a: string, k: nat, m: nat, b: string, l: nat, n: nat)
    requires a + "-" + First(Text.Numeral(k), m) == b + "-" + First(Text.Numeral(l), n)
    ensures a == b
  {
    var x, y := First(Text.Numeral(k), m), First(Text.Numeral(l), n);
    assert '-' !in Text.Numeral(k) && '-' !in Text.Numeral(l);
    assert '-' !in x && '-' !in y;
    assert a + ['-'] + x == b + ['-'] + y;
    Text.SplitAtLast(a, x, b, y, '-');
  }

  /** A short slug is a numbered one exactly when it is one uncut. */
  lemma ShortNumbered(a: string, b: string, l: nat)
    requires |a| < 100 && |b| < 100
    ensures a == b + "-" + First(Text.Numeral(l), 99 - |b|) <==> a == Suffixed(b, l)
  {
    var digits := Text.Numeral(l);
    if |digits| > 99 - |b| {
      assert |b + "-" + First(digits, 99 - |b|)| == 100;
      assert |Suffixed(b, l)| > 100;
    }
  }

  /** Operations of different slugs get one stored name exactly in those cases. */
  lemma DifferentSlugsCollideIff(a: string, k: nat, b: string, l: nat)
    requires a != b
    ensures Stored(a, k) == Stored(b, l) <==> OthersCollide(a, k, b, l)
  {
    StoredIs(a, k);
    StoredIs(b, l);
    LongSuffixed(a, b, l);
    LongSuffixed(b, a, k);
    if |a| < 100 && |b| < 100 {
      ShortNumbered(a, b, l);
      ShortNumbered(b, a, k);
    }
    hide Stored, Suffixed, First, Text.Numeral;
    if |a| < 100 && |b| < 100 && k > 1 && l > 1 && Stored(a, k) == Stored(b, l) {
      SlugBeforeNumber(a, k, 99 - |a|, b, l, 99 - |b|);
    }
  }

  /** A long slug that is a numbered one begins like it. */
  lemma LongSuffixed(a: string, b: string, l: nat)
    requires a != b
    ensures |a| >= 100 && l > 1 && a == Suffixed(b, l) ==> NumberedAs(a, b, l) || (|b| >= 100 && a[..100] == b[..100])
    ensures |a| < 100 && a == Suffixed(b, l) ==> |b| < 100
  {
    CutSuffixed(b, l);
    if |a| == 100 {
      assert a[..100] == a;
    }
  }

  /** Operations of one slug get one stored name exactly in theirs. */
  lemma SameSlugCollideIff(b: string, k: nat, l: nat)
    requires k < l && k >= 1
    ensures Stored(b, k) == Stored(b, l) <==> NamesakesCut(b, k, l)
  {
    StoredIs(b, k);
    StoredIs(b, l);
    hide Stored, First, Text.Numeral;
    if |b| < 100 {
      AfterHyphen(b, First(Text.Numeral(k), 99 - |b|), First(Text.Numeral(l), 99 - |b|));
    }
  }

  /** Two operations whose slugs and numbers bring them to one stored name. */
  predicate Collide(xs: seq<Listed>, i: nat, j: nat) {
    && i < j < |xs|
    && var a, b, k, l := Base(xs[i]), Base(xs[j]), Rank(xs, i), Rank(xs, j);
      if a == b then NamesakesCut(a, k, l) else OthersCollide(a, k, b, l)
  }

  lemma CollideIff(xs: seq<Listed>, i: nat, j: nat)
    requires i < j < |xs|
    ensures SeedOf(xs, i).endpointName == SeedOf(xs, j).endpointName <==> Collide(xs, i, j)
  {
    var a, b, k, l := Base(xs[i]), Base(xs[j]), Rank(xs, i), Rank(xs, j);
    RankPositive(xs, i);
    assert SeedOf(xs, i).endpointName == Stored(a, k) && SeedOf(xs, j).endpointName == Stored(b, l);
    if a == b {
      RanksDiffer(xs, i, j);
      SameSlugCollideIff(a, k, l);
    } else {
      DifferentSlugsCollideIff(a, k, b, l);
    }
    hide Base, Rank, Stored, NamesakesCut, OthersCollide;
  }

  /**
   * The upsert's conflict target never meets the same name twice in one statement exactly if no two operations' slugs
   * and numbers collide: neither namesakes whose numbers the column cuts alike, nor different slugs of which one is the
   * other numbered, or which are alike as far as the column goes.
   */
  lemma SeedNamesDistinctIff(paths: seq<PathItem>)
    ensures var xs := Listing(paths);
      DistinctlyNamed(Seeds(xs, |xs|)) <==> forall i: nat, j: nat :: !Collide(xs, i, j)
  {
    var xs := Listing(paths);
    forall i: nat, j: nat ensures SameName(Seeds(xs, |xs|), i, j) <==> Collide(xs, i, j) {
      SeedsCollideIff(xs, i, j);
    }
    hide Collide, SameName, Seeds, Listing;
  }

  predicate SameName(seeds: seq<SeedEndpoint>, i: nat, j: nat) {
    i < j < |seeds| && seeds[i].endpointName == seeds[j].endpointName
  }

  ghost predicate DistinctlyNamed(seeds: seq<SeedEndpoint>) {
    forall i: nat, j: nat :: !SameName(seeds, i, j)
  }

  lemma SeedsCollideIff(xs: seq<Listed>, i: nat, j: nat)
    ensures SameName(Seeds(xs, |xs|), i, j) <==> Collide(xs, i, j)
  {
    if i < j < |xs| {
      assert Seeds(xs, |xs|)[i] == SeedOf(xs, i) && Seeds(xs, |xs|)[j] == SeedOf(xs, j);
      CollideIff(xs, i, j);
    }
    hide SeedOf, Base, Rank, NamesakesCut, OthersCollide;
  }

  /** Namesakes by their slug and their numbers. */
  lemma NamesakesCollideIff(xs: seq<Listed>, i: nat, j: nat)
    requires i < j < |xs| && Base(xs[i]) == Base(xs[j])
    ensures SeedOf(xs, i).endpointName == SeedOf(xs, j).endpointName <==>
      NamesakesCut(Base(xs[i]), Rank(xs, i), Rank(xs, j))
  {
    CollideIff(xs, i, j);
  }

  /** Beyond the column's width numbering is cut off: namesakes of 100 characters or more always collide. */
  lemma LongNamesCollide(xs: seq<Listed>, i: nat, j: nat)
    requires i < j < |xs| && Base(xs[i]) == Base(xs[j]) && |Base(xs[i])| >= 100
    ensures SeedOf(xs, i).endpointName == SeedOf(xs, j).endpointName
  {
    NamesakesCollideIff(xs, i, j);
  }
}
