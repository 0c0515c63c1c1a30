/** Replacing placeholders one after the other, and all at once: for which values and which templates it is the same. */
module Substitution {
  import opened Wrappers
  import Text

  // ---------- substitution ----------

  /** `string.Replace`: every occurrence, left to right, without overlap. */
  function Replace(s: string, pattern: string, value: string): string
    requires pattern != ""
  {
    if s == "" then ""
    else if Text.StartsWith(s, pattern) then value + Replace(s[|pattern|..], pattern, value)
    else [s[0]] + Replace(s[1..], pattern, value)
  }

  datatype Placeholder = Placeholder(name: string, value: string)

  function Braced(name: string): (s: string)
    ensures s != "" && s[0] == '{'
  {
    "{" + name + "}"
  }

  function Pattern(p: Placeholder): (s: string)
    ensures s != "" && s[0] == '{'
  {
    Braced(p.name)
  }

  /** One replacement after the other, each over the result of those before. */
  function Sequential(template: string, ps: seq<Placeholder>): string {
    if ps == [] then template
    else
      var last := ps[|ps| - 1];
      Replace(Sequential(template, ps[..|ps| - 1]), Pattern(last), last.value)
  }

  function FirstMatch(s: string, ps: seq<Placeholder>): (r: Option<Placeholder>)
    ensures r.Some? ==> r.value in ps && Text.StartsWith(s, Pattern(r.value))
    ensures r.None? <==> forall p :: p in ps ==> !Text.StartsWith(s, Pattern(p))
  {
    if ps == [] then None
    else if Text.StartsWith(s, Pattern(ps[0])) then Some(ps[0])
    else FirstMatch(s, ps[1..])
  }

  /** All placeholders at once, in one pass over the template; substituted values are not looked at again. */
  function Simultaneous(template: string, ps: seq<Placeholder>): string {
    if template == "" then ""
    else
      match FirstMatch(template, ps)
      case Some(p) => p.value + Simultaneous(template[|Pattern(p)|..], ps)
      case None => [template[0]] + Simultaneous(template[1..], ps)
  }

  /** No second opening brace comes before the first is closed. */
  predicate Flat(s: string, inside: bool) {
    if s == "" then true
    else if s[0] == '{' then !inside && Flat(s[1..], true)
    else Flat(s[1..], inside && s[0] != '}')
  }

  predicate Plain(p: Placeholder) {
    '{' !in p.name && '}' !in p.name
  }

  /** One text begins with the other. */
  predicate Touches(a: string, b: string) {
    Text.StartsWith(a, b) || Text.StartsWith(b, a)
  }

  /** Nowhere in the text is the pattern, or the beginning of one that what follows the text could complete. */
  predicate Inert(value: string, pattern: string) {
    forall k :: 0 <= k < |value| ==> !Touches(value[k..], pattern)
  }

  /** At a place of a text, an opening brace, the beginning of one name, and the placeholder of another. */
  predicate PrimedAt(s: string, k: nat, q: string, p: string, m: nat) {
    k <= |s| && m <= |p| && Text.StartsWith(s[k..], "{" + p[..m] + Braced(q))
  }

  ghost predicate SafeFor(s: string, q: string, p: string) {
    forall k: nat, m: nat :: !PrimedAt(s, k, q, p, m)
  }

  /** Nowhere does a template begin a later placeholder just before an earlier one, whose value could complete it. */
  ghost predicate Safe(s: string, names: seq<string>) {
    forall i, j :: 0 <= i < j < |names| ==> SafeFor(s, names[i], names[j])
  }

  function NamesOf(ps: seq<Placeholder>): seq<string> {
    seq(|ps|, i requires 0 <= i < |ps| => ps[i].name)
  }

  /** No value holds or begins a later placeholder. */
  predicate Settled(ps: seq<Placeholder>) {
    forall i, j :: 0 <= i < j < |ps| ==> Inert(ps[i].value, Pattern(ps[j]))
  }

  // ---------- inert texts pass through a replacement ----------

  lemma MatchOpens(s: string, p: Placeholder)
    requires Text.StartsWith(s, Pattern(p))
    ensures s != "" && s[0] == '{'
  {
    assert s[..|Pattern(p)|][0] == '{';
  }

  lemma BracelessIsInert(w: string, p: Placeholder)
    requires '{' !in w
    ensures Inert(w, Pattern(p))
  {
    forall k | 0 <= k < |w| ensures !Touches(w[k..], Pattern(p)) {
      assert w[k..][0] == w[k];
    }
  }

  lemma {:induction false} ReplacePasses(w: string, rest: string, p: Placeholder)
    requires Inert(w, Pattern(p))
    ensures Replace(w + rest, Pattern(p), p.value) == w + Replace(rest, Pattern(p), p.value)
  {
    if w == "" {
      assert w + rest == rest;
    } else {
      var s := w + rest;
      assert s[0] == w[0] && s[1..] == w[1..] + rest;
      if Text.StartsWith(s, Pattern(p)) {
        StartSplits(w, rest, Pattern(p));
      }
      assert !Touches(w[0..], Pattern(p)) && w[0..] == w;
      assert forall k :: 0 <= k < |w[1..]| ==> w[1..][k..] == w[k + 1..];
      ReplacePasses(w[1..], rest, p);
      assert w == [w[0]] + w[1..];
    }
  }

  lemma StartSplits(w: string, rest: string, pattern: string)
    requires Text.StartsWith(w + rest, pattern)
    ensures Touches(w, pattern)
  {
    var n := if |w| < |pattern| then |w| else |pattern|;
    assert (w + rest)[..|pattern|][..n] == pattern[..n];
    assert (w + rest)[..n] == w[..n];
    assert (w + rest)[..|pattern|][..n] == (w + rest)[..n];
  }

  lemma NoMatchHere(s: string, ps: seq<Placeholder>)
    requires s != "" && s[0] != '{'
    ensures FirstMatch(s, ps).None?
  {
    forall p | p in ps ensures !Text.StartsWith(s, Pattern(p)) {
      if Text.StartsWith(s, Pattern(p)) {
        MatchOpens(s, p);
      }
    }
  }

  lemma {:induction false} SimultaneousPasses(w: string, rest: string, ps: seq<Placeholder>)
    requires '{' !in w
    ensures Simultaneous(w + rest, ps) == w + Simultaneous(rest, ps)
  {
    hide FirstMatch, Pattern;
    if w == "" {
      assert w + rest == rest;
    } else {
      var s := w + rest;
      assert s[1..] == w[1..] + rest;
      NoMatchHere(s, ps);
      SimultaneousPasses(w[1..], rest, ps);
      assert w == [w[0]] + w[1..];
    }
  }

  // ---------- what follows an opening brace ----------

  /** Up to the next brace, or to the end. */
  lemma {:induction false} UpToBrace(s: string) returns (w: string, rest: string)
    ensures s == w + rest && '{' !in w && '}' !in w
    ensures rest == "" || rest[0] == '{' || rest[0] == '}'
  {
    if s == "" || s[0] == '{' || s[0] == '}' {
      w, rest := "", s;
    } else {
      var w', rest' := UpToBrace(s[1..]);
      w, rest := [s[0]] + w', rest';
    }
  }

  /** A braced text starts with a placeholder exactly when its name is that placeholder's. */
  lemma ClosesAt(s: string, w: string, rest: string, p: Placeholder)
    requires s == "{" + w + rest && '}' !in w && rest != "" && rest[0] == '}' && Plain(p)
    ensures Text.StartsWith(s, Pattern(p)) <==> w == p.name
  {
    var pattern := Pattern(p);
    assert s[1 + |w|] == '}' && pattern[1 + |p.name|] == '}';
    assert forall i :: 0 <= i < |w| ==> s[1 + i] == w[i];
    assert forall i :: 0 <= i < |p.name| ==> pattern[1 + i] == p.name[i];
    if Text.StartsWith(s, pattern) {
      assert forall i :: 0 <= i < |pattern| ==> s[..|pattern|][i] == s[i];
      assert |w| == |p.name|;
      assert w == p.name;
    }
    if w == p.name {
      assert s[..|pattern|] == pattern;
    }
  }

  /** A brace that another follows before a closing one starts no placeholder. */
  lemma NotClosed(s: string, w: string, rest: string, p: Placeholder)
    requires s == "{" + w + rest && '}' !in w && '{' !in w && rest != "" && rest[0] == '{' && Plain(p)
    ensures !Text.StartsWith(s, Pattern(p))
  {
    var pattern := Pattern(p);
    assert pattern[1..] == p.name + "}";
    assert s[1 + |w|] == '{';
    if 1 + |w| < |pattern| {
      assert pattern[1 + |w|] == pattern[1..][|w|] != '{';
      if |pattern| <= |s| {
        assert s[..|pattern|][1 + |w|] != pattern[1 + |w|];
      }
    } else if Text.StartsWith(s, pattern) {
      NameBegins(s, w, rest, p);
    }
  }

  lemma NameBegins(s: string, w: string, rest: string, p: Placeholder)
    requires s == "{" + w + rest && '}' !in w && Plain(p) && Text.StartsWith(s, Pattern(p))
    ensures |w| <= |p.name| && w == p.name[..|w|]
  {
    var pattern := Pattern(p);
    assert pattern[1 + |p.name|] == '}';
    assert forall i :: 0 <= i < |pattern| ==> s[..|pattern|][i] == s[i];
    assert forall i :: 0 <= i < |w| ==> s[1 + i] == w[i];
    assert forall i :: 0 <= i < |p.name| ==> pattern[1 + i] == p.name[i];
  }

  lemma SafeTail(s: string, q: string, p: string, n: nat)
    requires SafeFor(s, q, p) && n <= |s|
    ensures SafeFor(s[n..], q, p)
  {
    forall k: nat, m: nat ensures !PrimedAt(s[n..], k, q, p, m) {
      if k <= |s[n..]| {
        assert s[n..][k..] == s[n + k..];
        assert !PrimedAt(s, n + k, q, p, m);
      }
    }
  }

  /** Whether a placeholder stands right here is not changed by substituting others further on. */
  lemma MatchStable(s: string, ps: seq<Placeholder>, p: Placeholder)
    requires s != "" && s[0] == '{' && Plain(p) && forall q :: q in ps ==> SafeFor(s, q.name, p.name)
    ensures Text.StartsWith([s[0]] + Simultaneous(s[1..], ps), Pattern(p)) <==> Text.StartsWith(s, Pattern(p))
  {
    var w, rest := UpToBrace(s[1..]);
    SimultaneousPasses(w, rest, ps);
    hide Simultaneous, Text.StartsWith, Pattern, FirstMatch, SafeFor, Plain;
    assert s == [s[0]] + s[1..];
    Opened(s[0], s[1..], w, rest);
    Opened(s[0], Simultaneous(s[1..], ps), w, Simultaneous(rest, ps));
    if rest == "" {
      assert Simultaneous(rest, ps) == "" by { NothingLeft(ps); }
    } else if rest[0] == '}' {
      ClosesStable(s, w, rest, ps, p);
    } else {
      NotClosed(s, w, rest, p);
      OpensStable(s, w, rest, ps, p);
    }
  }

  lemma Opened(brace: char, s: string, w: string, rest: string)
    requires brace == '{' && s == w + rest
    ensures [brace] + s == "{" + w + rest
  {
  }

  lemma NothingLeft(ps: seq<Placeholder>)
    ensures Simultaneous("", ps) == ""
  {
  }

  lemma ClosesStable(s: string, w: string, rest: string, ps: seq<Placeholder>, p: Placeholder)
    requires s == "{" + w + rest && '}' !in w && rest != "" && rest[0] == '}' && Plain(p)
    ensures Text.StartsWith("{" + w + Simultaneous(rest, ps), Pattern(p)) <==> Text.StartsWith(s, Pattern(p))
  {
    NoMatchHere(rest, ps);
    assert Simultaneous(rest, ps) == [rest[0]] + Simultaneous(rest[1..], ps);
    hide FirstMatch, Text.StartsWith, Pattern;
    ClosesAt(s, w, rest, p);
    ClosesAt("{" + w + Simultaneous(rest, ps), w, Simultaneous(rest, ps), p);
  }

  lemma OpensStable(s: string, w: string, rest: string, ps: seq<Placeholder>, p: Placeholder)
    requires s == "{" + w + rest && '}' !in w && '{' !in w && rest != "" && rest[0] == '{'
    requires Plain(p) && forall q :: q in ps ==> SafeFor(s, q.name, p.name)
    ensures !Text.StartsWith("{" + w + Simultaneous(rest, ps), Pattern(p))
  {
    var out := "{" + w + Simultaneous(rest, ps);
    match FirstMatch(rest, ps) {
      case None => NotClosed(out, w, Simultaneous(rest, ps), p);
      case Some(q) =>
        if Text.StartsWith(out, Pattern(p)) {
          NameBegins(out, w, Simultaneous(rest, ps), p);
          Primes(s, w, rest, q, p);
        }
    }
  }

  lemma Primes(s: string, w: string, rest: string, q: Placeholder, p: Placeholder)
    requires s == "{" + w + rest && |w| <= |p.name| && w == p.name[..|w|] && Text.StartsWith(rest, Pattern(q))
    ensures PrimedAt(s, 0, q.name, p.name, |w|)
  {
    assert s[0..] == s;
    assert s[..1 + |w| + |Pattern(q)|] == "{" + w + rest[..|Pattern(q)|];
  }

  // ---------- one more placeholder ----------

  lemma FirstMatchExtended(s: string, ps: seq<Placeholder>, p: Placeholder)
    ensures FirstMatch(s, ps + [p]) ==
      if FirstMatch(s, ps).Some? then FirstMatch(s, ps)
      else if Text.StartsWith(s, Pattern(p)) then Some(p)
      else None
  {
    if ps != [] {
      assert (ps + [p])[1..] == ps[1..] + [p];
      FirstMatchExtended(s, ps[1..], p);
    } else {
      assert ps + [p] == [p];
    }
  }

  lemma {:induction false} ReplaceAddsOne(s: string, ps: seq<Placeholder>, p: Placeholder)
    requires Plain(p) && forall q :: q in ps ==> Inert(q.value, Pattern(p)) && SafeFor(s, q.name, p.name)
    ensures Replace(Simultaneous(s, ps), Pattern(p), p.value) == Simultaneous(s, ps + [p])
    decreases |s|
  {
    if s != "" {
      FirstMatchExtended(s, ps, p);
      forall q, n | q in ps && 0 <= n <= |s| ensures SafeFor(s[n..], q.name, p.name) {
        SafeTail(s, q.name, p.name, n);
      }
      hide SafeFor;
      if s[0] != '{' {
        NoMatchHere(s, ps + [p]);
        ReplaceAddsOne(s[1..], ps, p);
        BracelessIsInert([s[0]], p);
        ReplacePasses([s[0]], Simultaneous(s[1..], ps), p);
      } else {
        match FirstMatch(s, ps) {
          case Some(q) =>
            var rest := s[|Pattern(q)|..];
            ReplaceAddsOne(rest, ps, p);
            ReplacePasses(q.value, Simultaneous(rest, ps), p);
          case None =>
            MatchStable(s, ps, p);
            if Text.StartsWith(s, Pattern(p)) {
              ReplaceAddsOne(s[|Pattern(p)|..], ps, p);
              MatchReplaced(s, ps, p);
            } else {
              ReplaceAddsOne(s[1..], ps, p);
              var out := [s[0]] + Simultaneous(s[1..], ps);
              assert out[1..] == Simultaneous(s[1..], ps);
            }
        }
      }
    }
  }

  /** A placeholder at the head is replaced like one, and what follows as it would be on its own. */
  lemma MatchReplaced(s: string, ps: seq<Placeholder>, p: Placeholder)
    requires FirstMatch(s, ps).None? && Text.StartsWith(s, Pattern(p)) && Plain(p)
    ensures var rest := s[|Pattern(p)|..];
      && Replace(Simultaneous(s, ps), Pattern(p), p.value)
        == p.value + Replace(Simultaneous(rest, ps), Pattern(p), p.value)
      && Simultaneous(s, ps + [p]) == p.value + Simultaneous(rest, ps + [p])
  {
    var rest := s[|Pattern(p)|..];
    MatchPasses(s, ps, p);
    FirstMatchExtended(s, ps, p);
    hide FirstMatch;
    var out := Simultaneous(s, ps);
    assert out[..|Pattern(p)|] == Pattern(p) && out[|Pattern(p)|..] == Simultaneous(rest, ps);
  }

  lemma MatchPasses(s: string, ps: seq<Placeholder>, p: Placeholder)
    requires FirstMatch(s, ps).None? && Text.StartsWith(s, Pattern(p)) && Plain(p)
    ensures Simultaneous(s, ps) == Pattern(p) + Simultaneous(s[|Pattern(p)|..], ps)
  {
    var rest, tail := s[|Pattern(p)|..], p.name + "}";
    PatternParts(p);
    Headed(s, Pattern(p));
    OneOn(s, ps);
    hide *;
    assert s[1..] == tail + rest;
    SimultaneousPasses(tail, rest, ps);
    Grouped(['{'], tail, Simultaneous(rest, ps));
  }

  lemma PatternParts(p: Placeholder)
    requires Plain(p)
    ensures var tail := p.name + "}"; Pattern(p) == ['{'] + tail && Pattern(p)[1..] == tail && '{' !in tail
  {
  }

  lemma Headed(s: string, pattern: string)
    requires Text.StartsWith(s, pattern) && pattern != ""
    ensures s == pattern + s[|pattern|..] && s[0] == pattern[0] && s[1..] == pattern[1..] + s[|pattern|..]
  {
  }

  lemma Grouped(a: string, b: string, c: string)
    ensures a + (b + c) == (a + b) + c
  {
  }

  lemma OneOn(s: string, ps: seq<Placeholder>)
    requires s != "" && FirstMatch(s, ps).None?
    ensures Simultaneous(s, ps) == [s[0]] + Simultaneous(s[1..], ps)
  {
  }

  /**
   * Replacing the placeholders one after the other is the same as replacing them all at once, for every template that
   * begins no later placeholder just before another, and values that neither hold nor begin a later placeholder.
   */
  lemma {:induction false} SequentialIsSimultaneous(template: string, ps: seq<Placeholder>)
    requires Safe(template, NamesOf(ps)) && Settled(ps) && forall p :: p in ps ==> Plain(p)
    ensures Sequential(template, ps) == Simultaneous(template, ps)
  {
    if ps == [] {
      NothingToReplace(template);
    } else {
      var before, last := ps[..|ps| - 1], ps[|ps| - 1];
      assert ps == before + [last];
      forall i, j | 0 <= i < j < |before| ensures Inert(before[i].value, Pattern(before[j])) {
        assert Inert(ps[i].value, Pattern(ps[j]));
      }
      hide SafeFor;
      forall i, j | 0 <= i < j < |before| ensures SafeFor(template, before[i].name, before[j].name) {
        assert SafeFor(template, NamesOf(ps)[i], NamesOf(ps)[j]);
      }
      SequentialIsSimultaneous(template, before);
      forall q | q in before ensures Inert(q.value, Pattern(last)) && SafeFor(template, q.name, last.name) {
        var i :| 0 <= i < |before| && before[i] == q;
        assert Inert(ps[i].value, Pattern(ps[|ps| - 1])) && SafeFor(template, NamesOf(ps)[i], NamesOf(ps)[|ps| - 1]);
      }
      ReplaceAddsOne(template, before, last);
    }
  }

  /** In particular for every template that closes each brace before opening the next. */
  lemma FlatIsSafe(s: string, names: seq<string>)
    requires Flat(s, false) && forall l :: 0 <= l < |names| ==> '{' !in names[l] && '}' !in names[l]
    ensures Safe(s, names)
  {
    forall i, j, k: nat, m: nat | 0 <= i < j < |names| ensures !PrimedAt(s, k, names[i], names[j], m) {
      if PrimedAt(s, k, names[i], names[j], m) {
        var inside := FlatFrom(s, false, k);
        var w, t := names[j][..m], s[k..];
        assert t == "{" + w + Braced(names[i]) + t[1 + m + |Braced(names[i])|..];
        var rest := Braced(names[i]) + t[1 + m + |Braced(names[i])|..];
        assert t[1..] == w + rest;
        NotFlat(w, rest);
      }
    }
  }

  lemma {:induction false} FlatFrom(s: string, inside: bool, k: nat) returns (inside': bool)
    requires Flat(s, inside) && k <= |s|
    ensures Flat(s[k..], inside')
  {
    if k == 0 {
      inside' := inside;
      assert s[0..] == s;
    } else {
      inside' := FlatFrom(s[1..], if s[0] == '{' then true else inside && s[0] != '}', k - 1);
      assert s[1..][k - 1..] == s[k..];
    }
  }

  lemma {:induction false} NotFlat(w: string, rest: string)
    requires '{' !in w && '}' !in w && rest != "" && rest[0] == '{'
    ensures !Flat(w + rest, true)
  {
    if w == "" {
      assert w + rest == rest;
    } else {
      assert (w + rest)[1..] == w[1..] + rest;
      NotFlat(w[1..], rest);
    }
  }

  lemma {:induction false} NothingToReplace(s: string)
    ensures Simultaneous(s, []) == s
  {
    if s != "" {
      NothingToReplace(s[1..]);
    }
  }

  /** A value that spells a later placeholder is itself replaced: one after the other is then not all at once. */
  lemma ValuesMustNotOpen(a: Placeholder, b: Placeholder)
    requires a.value == Pattern(b) && b.value != Pattern(b) && a.name != b.name && Plain(b) && '}' !in a.name
    ensures Sequential(Pattern(a), [a, b]) == b.value
    ensures Simultaneous(Pattern(a), [a, b]) == Pattern(b)
  {
    WholeReplaced(a);
    WholeReplaced(b);
    assert [a, b][..1] == [a];
    assert [a][..0] == [];
    assert Sequential(Pattern(a), [a]) == Pattern(b);
    assert Pattern(a)[|Pattern(a)|..] == "";
  }

  lemma WholeReplaced(p: Placeholder)
    ensures Replace(Pattern(p), Pattern(p), p.value) == p.value
  {
    assert Pattern(p)[..|Pattern(p)|] == Pattern(p) && Pattern(p)[|Pattern(p)|..] == "";
  }

  // ---------- which values are harmless ----------

  function Paired(names: seq<string>, values: seq<string>): seq<Placeholder>
    requires |names| == |values|
  {
    seq(|names|, i requires 0 <= i < |names| => Placeholder(names[i], values[i]))
  }

  /** Whatever the template, and whatever brace-free values the others have, a value changes nothing between the two. */
  ghost predicate Harmless(names: seq<string>, i: nat, v: string)
    requires i < |names|
  {
    forall template: string, values: seq<string> ::
      (Safe(template, names) && Others(names, values, i, v)) ==>
        Sequential(template, Paired(names, values)) == Simultaneous(template, Paired(names, values))
  }

  ghost predicate Others(names: seq<string>, values: seq<string>, i: nat, v: string)
    requires i < |names|
  {
    && |values| == |names| && values[i] == v
    && forall l :: 0 <= l < |values| && l != i ==> '{' !in values[l]
  }

  ghost predicate Named(names: seq<string>) {
    && (forall l :: 0 <= l < |names| ==> '{' !in names[l] && '}' !in names[l])
    && forall l, m :: 0 <= l < m < |names| ==> names[l] != names[m]
  }

  /**
   * A value of a placeholder is harmless exactly when it neither holds a later placeholder nor ends in the beginning
   * of one.
   */
  lemma HarmlessIff(names: seq<string>, i: nat, v: string)
    requires Named(names) && i < |names|
    ensures Harmless(names, i, v) <==> forall j :: i < j < |names| ==> Inert(v, "{" + names[j] + "}")
  {
    if forall j :: i < j < |names| ==> Inert(v, "{" + names[j] + "}") {
      forall template: string, values: seq<string> | Safe(template, names) && Others(names, values, i, v)
        ensures Sequential(template, Paired(names, values)) == Simultaneous(template, Paired(names, values))
      {
        InertValues(names, values, i, v);
        assert NamesOf(Paired(names, values)) == names;
        SequentialIsSimultaneous(template, Paired(names, values));
      }
    } else {
      var j :| i < j < |names| && !Inert(v, "{" + names[j] + "}");
      var k :| 0 <= k < |v| && Touches(v[k..], "{" + names[j] + "}");
      var template, values := Differs(names, i, v, j, k);
    }
  }

  lemma InertValues(names: seq<string>, values: seq<string>, i: nat, v: string)
    requires Named(names) && i < |names| && Others(names, values, i, v)
    requires forall j :: i < j < |names| ==> Inert(v, "{" + names[j] + "}")
    ensures Settled(Paired(names, values)) && forall p :: p in Paired(names, values) ==> Plain(p)
  {
    var ps := Paired(names, values);
    forall a, b | 0 <= a < b < |ps| ensures Inert(ps[a].value, Pattern(ps[b])) {
      if a != i {
        BracelessIsInert(values[a], ps[b]);
      }
    }
  }

  /** What completes a placeholder begun at a place of a value. */
  function Completion(v: string, k: nat, pattern: string): string
    requires k < |v|
  {
    if |pattern| <= |v| - k then "" else pattern[|v| - k..]
  }

  /** The value, followed by what completes the later placeholder, is where the two part. */
  lemma Differs(names: seq<string>, i: nat, v: string, j: nat, k: nat) returns (template: string, values: seq<string>)
    requires Named(names) && i < j < |names| && k < |v| && Touches(v[k..], "{" + names[j] + "}")
    ensures Safe(template, names) && Others(names, values, i, v)
    ensures Sequential(template, Paired(names, values)) != Simultaneous(template, Paired(names, values))
  {
    var filler := Filler(names);
    values := seq(|names|, l => if l == i then v else filler);
    var ps := Paired(names, values);
    assert forall l :: i < l < |ps| ==> |ps[l].value| > |Pattern(ps[l])|;
    assert NamesOf(ps) == names;
    hide Safe, Completion, Sequential, Simultaneous, Inert, Touches, Text.StartsWith;
    template := Apart(ps, i, j, k);
  }

  lemma Apart(ps: seq<Placeholder>, i: nat, j: nat, k: nat) returns (template: string)
    requires Distinct(ps) && i < j < |ps| && k < |ps[i].value| && Touches(ps[i].value[k..], Pattern(ps[j]))
    requires forall l :: i < l < |ps| ==> |ps[l].value| > |Pattern(ps[l])|
    ensures Safe(template, NamesOf(ps)) && Sequential(template, ps) != Simultaneous(template, ps)
  {
    var tail := Completion(ps[i].value, k, Pattern(ps[j]));
    template := Pattern(ps[i]) + tail;
    Completes(ps[i].value, k, ps[j]);
    hide Completion, Replace, Inert, Touches, Text.StartsWith, Sequential, Simultaneous;
    HeadIsSafe(ps[i], tail, NamesOf(ps));
    AllAtOnce(ps, i, tail);
    UpToThis(ps, i, tail, i);
    OneByOne(ps, i, tail);
    Parted(template, ps, i, j, k, |ps|);
    assert ps[..|ps|] == ps;
  }

  lemma HeadIsSafe(p: Placeholder, tail: string, names: seq<string>)
    requires Plain(p) && '{' !in tail
    ensures Safe(Pattern(p) + tail, names)
  {
    var s := Pattern(p) + tail;
    assert '{' !in s[1..] by { assert s[1..] == p.name + "}" + tail; }
    forall i, j, k: nat, m: nat | 0 <= i < j < |names| ensures !PrimedAt(s, k, names[i], names[j], m) {
      var head := "{" + names[j][..if m <= |names[j]| then m else 0] + Braced(names[i]);
      if k <= |s| && |head| <= |s| - k {
        assert s[k..][..|head|][|head| - |Braced(names[i])|] == s[1..][k + |head| - |Braced(names[i])| - 1] != '{';
        assert head[|head| - |Braced(names[i])|] == '{';
      }
    }
  }

  lemma Completes(v: string, k: nat, p: Placeholder)
    requires Plain(p) && k < |v| && Touches(v[k..], Pattern(p))
    ensures var tail := Completion(v, k, Pattern(p));
      '{' !in tail && Text.StartsWith((v + tail)[k..], Pattern(p))
  {
    var tail := Completion(v, k, Pattern(p));
    assert (v + tail)[k..] == v[k..] + tail;
    assert Pattern(p)[1..] == p.name + "}";
    if |Pattern(p)| > |v| - k {
      assert Pattern(p)[|v| - k..] == Pattern(p)[1..][|v| - k - 1..];
    }
  }

  /** A brace-free text longer than every pattern. */
  lemma {:induction false} Filler(names: seq<string>) returns (w: string)
    ensures '{' !in w && forall l :: 0 <= l < |names| ==> |w| > |names[l]| + 2
  {
    if names == [] {
      w := "";
    } else {
      var shorter := Filler(names[1..]);
      w := shorter + seq(|names[0]| + 3, _ => 'x');
      assert forall l :: 1 <= l < |names| ==> names[l] == names[1..][l - 1];
    }
  }

  /** Placeholders with names of their own. */
  ghost predicate Distinct(ps: seq<Placeholder>) {
    && (forall l :: 0 <= l < |ps| ==> Plain(ps[l]))
    && forall l, m :: 0 <= l < m < |ps| ==> ps[l].name != ps[m].name
  }

  /** Only its own placeholder stands at the head of a template of one placeholder. */
  lemma HeadIsOwn(ps: seq<Placeholder>, i: nat, tail: string, l: nat)
    requires Distinct(ps) && i < |ps| && l < |ps|
    ensures Text.StartsWith(Pattern(ps[i]) + tail, Pattern(ps[l])) <==> l == i
  {
    var s := Pattern(ps[i]) + tail;
    assert s == "{" + ps[i].name + ("}" + tail);
    ClosesAt(s, ps[i].name, "}" + tail, ps[l]);
    assert l < i ==> ps[l].name != ps[i].name;
    assert i < l ==> ps[i].name != ps[l].name;
  }

  lemma AllAtOnce(ps: seq<Placeholder>, i: nat, tail: string)
    requires Distinct(ps) && i < |ps| && '{' !in tail
    ensures Simultaneous(Pattern(ps[i]) + tail, ps) == ps[i].value + tail
  {
    var s := Pattern(ps[i]) + tail;
    HeadIsOwn(ps, i, tail, i);
    assert ps[i] in ps;
    var p := FirstMatch(s, ps).value;
    var l :| 0 <= l < |ps| && ps[l] == p;
    HeadIsOwn(ps, i, tail, l);
    assert s[|Pattern(p)|..] == tail;
    SimultaneousPasses(tail, "", ps);
    assert tail + "" == tail;
  }

  lemma {:induction false} UpToThis(ps: seq<Placeholder>, i: nat, tail: string, m: nat)
    requires Distinct(ps) && m <= i < |ps| && '{' !in tail
    ensures Sequential(Pattern(ps[i]) + tail, ps[..m]) == Pattern(ps[i]) + tail
  {
    if m > 0 {
      UpToThis(ps, i, tail, m - 1);
      assert ps[..m][..m - 1] == ps[..m - 1];
      hide Replace;
      OtherPasses(ps, i, tail, m - 1);
    }
  }

  lemma OtherPasses(ps: seq<Placeholder>, i: nat, tail: string, l: nat)
    requires Distinct(ps) && l < i < |ps| && '{' !in tail
    ensures Replace(Pattern(ps[i]) + tail, Pattern(ps[l]), ps[l].value) == Pattern(ps[i]) + tail
  {
    var s, p := Pattern(ps[i]) + tail, ps[l];
    HeadIsOwn(ps, i, tail, l);
    assert s[1..] == ps[i].name + "}" + tail;
    BracelessIsInert(s[1..], p);
    ReplacePasses(s[1..], "", p);
    hide Inert, Text.StartsWith;
    assert s[1..] + "" == s[1..];
  }

  lemma OneByOne(ps: seq<Placeholder>, i: nat, tail: string)
    requires Distinct(ps) && i < |ps| && '{' !in tail
    requires Sequential(Pattern(ps[i]) + tail, ps[..i]) == Pattern(ps[i]) + tail
    ensures Sequential(Pattern(ps[i]) + tail, ps[..i + 1]) == ps[i].value + tail
  {
    var s := Pattern(ps[i]) + tail;
    assert ps[..i + 1][..i] == ps[..i];
    assert s[..|Pattern(ps[i])|] == Pattern(ps[i]) && s[|Pattern(ps[i])|..] == tail;
    BracelessIsInert(tail, ps[i]);
    ReplacePasses(tail, "", ps[i]);
    assert tail + "" == tail;
  }

  /** Replacing by something longer changes a text exactly by making it longer. */
  lemma {:induction false} ReplaceGrows(s: string, pattern: string, value: string)
    requires pattern != "" && |value| > |pattern|
    ensures Replace(s, pattern, value) == s || |Replace(s, pattern, value)| > |s|
    ensures (exists k :: 0 <= k <= |s| && Text.StartsWith(s[k..], pattern)) ==> |Replace(s, pattern, value)| > |s|
  {
    if s != "" {
      if Text.StartsWith(s, pattern) {
        ReplaceGrows(s[|pattern|..], pattern, value);
      } else {
        ReplaceGrows(s[1..], pattern, value);
        if k :| 0 <= k <= |s| && Text.StartsWith(s[k..], pattern) {
          assert s[0..] == s;
          assert s[k..] == s[1..][k - 1..];
        }
      }
    }
  }

  /** Once the text after the i-th replacement holds a later placeholder, the result is longer than that text. */
  lemma {:induction false} Parted(template: string, ps: seq<Placeholder>, i: nat, j: nat, k: nat, m: nat)
    requires i < j < |ps| && i < m <= |ps|
    requires var text := Sequential(template, ps[..i + 1]); k <= |text| && Text.StartsWith(text[k..], Pattern(ps[j]))
    requires forall l :: i < l < |ps| ==> |ps[l].value| > |Pattern(ps[l])|
    ensures var text, r := Sequential(template, ps[..i + 1]), Sequential(template, ps[..m]);
      (r == text && m <= j) || |r| > |text|
  {
    hide Replace, Pattern, Text.StartsWith;
    if m > i + 1 {
      Parted(template, ps, i, j, k, m - 1);
      assert ps[..m][..m - 1] == ps[..m - 1];
      var p := ps[m - 1];
      ReplaceGrows(Sequential(template, ps[..m - 1]), Pattern(p), p.value);
    }
  }

  // ---------- which templates are safe ----------

  /** With brace-free values, whatever they are, a template gives the same either way. */
  ghost predicate Agrees(names: seq<string>, template: string) {
    forall values: seq<string> :: BraceFree(names, values) ==>
      Sequential(template, Paired(names, values)) == Simultaneous(template, Paired(names, values))
  }

  ghost predicate BraceFree(names: seq<string>, values: seq<string>) {
    |values| == |names| && forall l :: 0 <= l < |values| ==> '{' !in values[l]
  }

  /** How many closing braces a text has: what tells the two results apart. */
  function Closings(s: string): nat {
    if s == "" then 0 else (if s[0] == '}' then 1 else 0) + Closings(s[1..])
  }

  lemma {:induction false} ClosingsJoin(a: string, b: string)
    ensures Closings(a + b) == Closings(a) + Closings(b)
  {
    if a == "" {
      assert a + b == b;
    } else {
      assert (a + b)[1..] == a[1..] + b;
      ClosingsJoin(a[1..], b);
    }
  }

  lemma {:induction false} NoClosings(s: string)
    requires '}' !in s
    ensures Closings(s) == 0
  {
    if s != "" {
      NoClosings(s[1..]);
    }
  }

  lemma PatternCloses(p: Placeholder)
    requires Plain(p)
    ensures Closings(Pattern(p)) == 1 && Closings(p.name + "}") == 1
  {
    NoClosings(p.name);
    ClosingsJoin(p.name, "}");
    assert Pattern(p) == "{" + (p.name + "}");
    ClosingsJoin("{", p.name + "}");
    assert Closings("}") == 1 && Closings("{") == 0;
  }

  ghost predicate Somewhere(s: string, q: Placeholder, p: Placeholder, m: nat) {
    exists k: nat :: PrimedAt(s, k, q.name, p.name, m)
  }

  lemma SomewhereLater(s: string, q: Placeholder, p: Placeholder, m: nat)
    requires Somewhere(s, q, p, m) && s != "" && !PrimedAt(s, 0, q.name, p.name, m)
    ensures Somewhere(s[1..], q, p, m)
  {
    var k: nat :| PrimedAt(s, k, q.name, p.name, m);
    assert s[1..][k - 1..] == s[k..];
    assert PrimedAt(s[1..], k - 1, q.name, p.name, m);
  }

  /** Inside a placeholder nothing else begins. */
  lemma SomewhereAfter(s: string, r: Placeholder, q: Placeholder, p: Placeholder, m: nat)
    requires Somewhere(s, q, p, m) && Text.StartsWith(s, Pattern(r)) && Plain(r) && Plain(p)
    ensures Somewhere(s[|Pattern(r)|..], q, p, m)
  {
    var k: nat :| PrimedAt(s, k, q.name, p.name, m);
    var n := |Pattern(r)|;
    Headed(s, Pattern(r));
    assert s[k] == s[k..][..|"{" + p.name[..m] + Braced(q.name)|][0] == '{';
    assert Pattern(r)[1..] == r.name + "}";
    assert forall l :: 1 <= l < n ==> s[l] == Pattern(r)[1..][l - 1] != '{';
    if k == 0 {
      SecondBrace(s, r, q, p, m);
    } else {
      assert s[n..][k - n..] == s[k..];
      assert PrimedAt(s[n..], k - n, q.name, p.name, m);
    }
  }

  lemma SecondBrace(s: string, r: Placeholder, q: Placeholder, p: Placeholder, m: nat)
    requires Text.StartsWith(s, Pattern(r)) && Plain(r) && Plain(p)
    ensures !PrimedAt(s, 0, q.name, p.name, m)
  {
    if m <= |p.name| {
      var head := "{" + p.name[..m] + Braced(q.name);
      assert s[0..] == s;
      if Text.StartsWith(s, head) {
        var rest := s[|head|..];
        Headed(s, head);
        assert s == "{" + p.name[..m] + (Braced(q.name) + rest);
        NotClosed(s, p.name[..m], Braced(q.name) + rest, r);
      }
    }
  }

  lemma OwnMatch(ps: seq<Placeholder>, i: nat, tail: string)
    requires Distinct(ps) && i < |ps|
    ensures FirstMatch(Pattern(ps[i]) + tail, ps) == Some(ps[i])
  {
    var s := Pattern(ps[i]) + tail;
    HeadIsOwn(ps, i, tail, i);
    assert ps[i] in ps;
    var p := FirstMatch(s, ps).value;
    var l :| 0 <= l < |ps| && ps[l] == p;
    HeadIsOwn(ps, i, tail, l);
  }

  /** A value that is what is missing of a later placeholder completes it. */
  lemma PrimedCompletes(s: string, ps: seq<Placeholder>, i: nat, p: Placeholder, m: nat)
    requires Distinct(ps) && i < |ps| && Plain(p) && PrimedAt(s, 0, ps[i].name, p.name, m)
    requires ps[i].value == p.name[m..] + "}"
    ensures s != "" && s[0] == '{' && Text.StartsWith("{" + Simultaneous(s[1..], ps), Pattern(p))
  {
    var w, q := p.name[..m], ps[i];
    var t := PrimedSplits(s, q, p, m);
    hide *;
    SimultaneousPasses(w, Pattern(q) + t, ps);
    MatchSkips(ps, i, t);
    Completed(p, m, Simultaneous(t, ps));
  }

  lemma PrimedSplits(s: string, q: Placeholder, p: Placeholder, m: nat) returns (t: string)
    requires Plain(p) && PrimedAt(s, 0, q.name, p.name, m)
    ensures m <= |p.name| && '{' !in p.name[..m] && s != "" && s[0] == '{'
    ensures s[1..] == p.name[..m] + (Pattern(q) + t)
  {
    var head := "{" + p.name[..m] + Pattern(q);
    assert s[0..] == s;
    Headed(s, head);
    t := s[|head|..];
    assert head[1..] == p.name[..m] + Pattern(q);
    hide PrimedAt, Text.StartsWith, Pattern;
    Grouped(p.name[..m], Pattern(q), t);
  }

  lemma MatchSkips(ps: seq<Placeholder>, i: nat, t: string)
    requires Distinct(ps) && i < |ps|
    ensures Simultaneous(Pattern(ps[i]) + t, ps) == ps[i].value + Simultaneous(t, ps)
  {
    OwnMatch(ps, i, t);
    hide FirstMatch, Distinct;
    assert (Pattern(ps[i]) + t)[|Pattern(ps[i])|..] == t;
  }

  lemma Completed(p: Placeholder, m: nat, t: string)
    requires m <= |p.name|
    ensures Text.StartsWith("{" + (p.name[..m] + (p.name[m..] + "}" + t)), Pattern(p))
  {
    var out := "{" + (p.name[..m] + (p.name[m..] + "}" + t));
    assert p.name[..m] + p.name[m..] == p.name;
    assert out == Pattern(p) + t;
    assert out[..|Pattern(p)|] == Pattern(p);
  }

  /**
   * Replacing a placeholder after the others, by two closing braces, gives at least as many as replacing it with them,
   * and more where the value of another completes it.
   */
  lemma {:induction false} MoreClosings(s: string, ps: seq<Placeholder>, i: nat, p: Placeholder, m: nat)
    requires Distinct(ps) && i < |ps| && Plain(p) && p.value == "}}" && m <= |p.name|
    requires ps[i].value == p.name[m..] + "}" && forall r :: r in ps ==> '{' !in r.value
    ensures var a, b := Replace(Simultaneous(s, ps), Pattern(p), p.value), Simultaneous(s, ps + [p]);
      Closings(a) >= Closings(b) && (Somewhere(s, ps[i], p, m) ==> Closings(a) > Closings(b))
    decreases |s|
  {
    var q := ps[i];
    if s == "" {
      NotInNothing(q, p, m);
    } else {
      FirstMatchExtended(s, ps, p);
      hide Somewhere, PrimedAt, Distinct;
      if s[0] != '{' {
        NoMatchHere(s, ps + [p]);
        NotBraced(s, q, p, m);
        MoreClosings(s[1..], ps, i, p, m);
        BracelessIsInert([s[0]], p);
        ReplacePasses([s[0]], Simultaneous(s[1..], ps), p);
        SameHead([s[0]], s, s[1..], ps, q, p, m);
      } else {
        match FirstMatch(s, ps) {
          case Some(r) =>
            var rest := s[|Pattern(r)|..];
            IsPlain(ps, r);
            MoreClosings(rest, ps, i, p, m);
            BracelessIsInert(r.value, p);
            ReplacePasses(r.value, Simultaneous(rest, ps), p);
            if Somewhere(s, q, p, m) {
              SomewhereAfter(s, r, q, p, m);
            }
            SameHead(r.value, s, rest, ps, q, p, m);
          case None =>
            if Text.StartsWith(s, Pattern(p)) {
              var rest := s[|Pattern(p)|..];
              MoreClosings(rest, ps, i, p, m);
              MatchReplaced(s, ps, p);
              if Somewhere(s, q, p, m) {
                SomewhereAfter(s, p, q, p, m);
              }
              SameHead(p.value, s, rest, ps, q, p, m);
            } else {
              MoreClosings(s[1..], ps, i, p, m);
              OpenClosings(s, ps, i, p, m);
            }
        }
      }
    }
  }

  lemma NotInNothing(q: Placeholder, p: Placeholder, m: nat)
    ensures !Somewhere("", q, p, m)
  {
  }

  lemma NotBraced(s: string, q: Placeholder, p: Placeholder, m: nat)
    requires s != "" && s[0] != '{'
    ensures Somewhere(s, q, p, m) ==> Somewhere(s[1..], q, p, m)
  {
    if Somewhere(s, q, p, m) {
      assert !PrimedAt(s, 0, q.name, p.name, m) by {
        assert s[0..] == s;
        assert m <= |p.name| ==> ("{" + p.name[..m] + Braced(q.name))[0] == '{';
      }
      SomewhereLater(s, q, p, m);
    }
  }

  lemma IsPlain(ps: seq<Placeholder>, r: Placeholder)
    requires Distinct(ps) && r in ps
    ensures Plain(r)
  {
  }

  /** A head that both results share changes nothing between them. */
  lemma SameHead(v: string, s: string, rest: string, ps: seq<Placeholder>, q: Placeholder, p: Placeholder, m: nat)
    requires var a, b := Replace(Simultaneous(rest, ps), Pattern(p), p.value), Simultaneous(rest, ps + [p]);
      Closings(a) >= Closings(b) && (Somewhere(rest, q, p, m) ==> Closings(a) > Closings(b))
    requires Somewhere(s, q, p, m) ==> Somewhere(rest, q, p, m)
    ensures var a, b := v + Replace(Simultaneous(rest, ps), Pattern(p), p.value), v + Simultaneous(rest, ps + [p]);
      Closings(a) >= Closings(b) && (Somewhere(s, q, p, m) ==> Closings(a) > Closings(b))
  {
    ClosingsJoin(v, Replace(Simultaneous(rest, ps), Pattern(p), p.value));
    ClosingsJoin(v, Simultaneous(rest, ps + [p]));
  }

  /** At a brace where no placeholder stands, one may come to stand: then there is a closing brace too many. */
  lemma OpenClosings(s: string, ps: seq<Placeholder>, i: nat, p: Placeholder, m: nat)
    requires Distinct(ps) && i < |ps| && Plain(p) && p.value == "}}" && m <= |p.name|
    requires ps[i].value == p.name[m..] + "}"
    requires s != "" && s[0] == '{' && FirstMatch(s, ps).None? && !Text.StartsWith(s, Pattern(p))
    requires var rest := s[1..];
      var a, b := Replace(Simultaneous(rest, ps), Pattern(p), p.value), Simultaneous(rest, ps + [p]);
      Closings(a) >= Closings(b) && (Somewhere(rest, ps[i], p, m) ==> Closings(a) > Closings(b))
    ensures var a, b := Replace(Simultaneous(s, ps), Pattern(p), p.value), Simultaneous(s, ps + [p]);
      Closings(a) >= Closings(b) && (Somewhere(s, ps[i], p, m) ==> Closings(a) > Closings(b))
  {
    var r := Simultaneous(s[1..], ps);
    var out := "{" + r;
    FirstMatchExtended(s, ps, p);
    OneOn(s, ps);
    OneOn(s, ps + [p]);
    if Text.StartsWith(out, Pattern(p)) {
      hide Somewhere, FirstMatch, Distinct;
      ClosingsJoin("{", Simultaneous(s[1..], ps + [p]));
      SpuriousMatch(r, p);
    } else {
      if Somewhere(s, ps[i], p, m) {
        if PrimedAt(s, 0, ps[i].name, p.name, m) {
          PrimedCompletes(s, ps, i, p, m);
        }
        SomewhereLater(s, ps[i], p, m);
      }
      hide Somewhere, FirstMatch, Distinct;
      assert out[1..] == r;
      SameHead("{", s, s[1..], ps, ps[i], p, m);
    }
  }

  lemma SpuriousMatch(r: string, p: Placeholder)
    requires Plain(p) && p.value == "}}" && Text.StartsWith("{" + r, Pattern(p))
    ensures Closings(Replace("{" + r, Pattern(p), p.value)) == Closings(Replace(r, Pattern(p), p.value)) + 1
  {
    var out, w := "{" + r, p.name + "}";
    Headed(out, Pattern(p));
    var rest := out[|Pattern(p)|..];
    assert out[1..] == r && Pattern(p)[1..] == w;
    assert r == w + rest;
    BracelessIsInert(w, p);
    ReplacePasses(w, rest, p);
    PatternCloses(p);
    ClosingsJoin(w, Replace(rest, Pattern(p), p.value));
    ClosingsJoin(p.value, Replace(rest, Pattern(p), p.value));
    assert Closings("}}") == 2 by { assert "}}"[1..] == "}" && "}"[1..] == ""; }
  }

  /** A placeholder whose value has one closing brace, like its pattern, keeps their number either way. */
  lemma {:induction false} ReplaceKeepsClosings(s: string, p: Placeholder)
    requires Plain(p) && p.value == "}"
    ensures Closings(Replace(s, Pattern(p), p.value)) == Closings(s)
    decreases |s|
  {
    if s != "" {
      if Text.StartsWith(s, Pattern(p)) {
        var rest := s[|Pattern(p)|..];
        ReplaceKeepsClosings(rest, p);
        Headed(s, Pattern(p));
        PatternCloses(p);
        ClosingsJoin(Pattern(p), rest);
        ClosingsJoin(p.value, Replace(rest, Pattern(p), p.value));
        assert Closings("}") == 1;
      } else {
        ReplaceKeepsClosings(s[1..], p);
        assert s == [s[0]] + s[1..];
        ClosingsJoin([s[0]], s[1..]);
        ClosingsJoin([s[0]], Replace(s[1..], Pattern(p), p.value));
      }
    }
  }

  lemma {:induction false} SimultaneousKeepsClosings(s: string, ps: seq<Placeholder>, p: Placeholder)
    requires Plain(p) && p.value == "}"
    ensures Closings(Simultaneous(s, ps + [p])) == Closings(Simultaneous(s, ps))
    decreases |s|
  {
    if s != "" {
      FirstMatchExtended(s, ps, p);
      match FirstMatch(s, ps) {
        case Some(r) =>
          var rest := s[|Pattern(r)|..];
          SimultaneousKeepsClosings(rest, ps, p);
          ClosingsJoin(r.value, Simultaneous(rest, ps));
          ClosingsJoin(r.value, Simultaneous(rest, ps + [p]));
        case None =>
          if Text.StartsWith(s, Pattern(p)) {
            var rest := s[|Pattern(p)|..];
            SimultaneousKeepsClosings(rest, ps, p);
            MatchPasses(s, ps, p);
            MatchReplaced(s, ps, p);
            PatternCloses(p);
            ClosingsJoin(Pattern(p), Simultaneous(rest, ps));
            ClosingsJoin(p.value, Simultaneous(rest, ps + [p]));
            assert Closings("}") == 1;
          } else {
            SimultaneousKeepsClosings(s[1..], ps, p);
            OneOn(s, ps);
            OneOn(s, ps + [p]);
            ClosingsJoin([s[0]], Simultaneous(s[1..], ps));
            ClosingsJoin([s[0]], Simultaneous(s[1..], ps + [p]));
          }
      }
    }
  }

  /** The placeholders after a given one have the value of one closing brace. */
  lemma {:induction false} LaterKeep(template: string, ps: seq<Placeholder>, j: nat, n: nat)
    requires j < n <= |ps| && forall l :: j < l < |ps| ==> Plain(ps[l]) && ps[l].value == "}"
    ensures Closings(Sequential(template, ps[..n])) == Closings(Sequential(template, ps[..j + 1]))
    ensures Closings(Simultaneous(template, ps[..n])) == Closings(Simultaneous(template, ps[..j + 1]))
  {
    if n > j + 1 {
      LaterKeep(template, ps, j, n - 1);
      var p := ps[n - 1];
      assert ps[..n] == ps[..n - 1] + [p] && ps[..n][..n - 1] == ps[..n - 1];
      ReplaceKeepsClosings(Sequential(template, ps[..n - 1]), p);
      SimultaneousKeepsClosings(template, ps[..n - 1], p);
    }
  }

  /** The first of the names for which a template is not safe. */
  lemma {:induction false} FirstUnsafe(template: string, names: seq<string>, n: nat) returns (j: nat)
    requires n <= |names| && !Safe(template, names[..n])
    ensures j < n && Safe(template, names[..j]) && !Safe(template, names[..j + 1])
  {
    hide SafeFor;
    assert n > 0;
    if Safe(template, names[..n - 1]) {
      j := n - 1;
    } else {
      j := FirstUnsafe(template, names, n - 1);
    }
  }

  /** Values for which the two differ: one completes a later placeholder, which has one closing brace too many. */
  function Telling(names: seq<string>, i: nat, j: nat, m: nat): seq<string>
    requires i < |names| && j < |names| && m <= |names[j]|
  {
    seq(|names|, l => if l == i then names[j][m..] + "}" else if l == j then "}}" else "}")
  }

  lemma UnsafeDiffers(names: seq<string>, template: string, i: nat, j: nat, k: nat, m: nat)
    requires Named(names) && i < j < |names| && Safe(template, names[..j])
    requires PrimedAt(template, k, names[i], names[j], m)
    ensures m <= |names[j]| && BraceFree(names, Telling(names, i, j, m))
    ensures var ps := Paired(names, Telling(names, i, j, m)); Sequential(template, ps) != Simultaneous(template, ps)
  {
    var ps := Paired(names, Telling(names, i, j, m));
    TellingApart(names, i, j, m);
    assert NamesOf(ps[..j]) == names[..j];
    assert Somewhere(template, ps[i], ps[j], m);
    hide Safe, PrimedAt, Somewhere, Telling, Paired, BraceFree, Named, Distinct, Settled, Sequential, Simultaneous;
    MoreAt(template, ps, i, j, m);
    MorePersists(template, ps, j);
  }

  lemma MoreAt(template: string, ps: seq<Placeholder>, i: nat, j: nat, m: nat)
    requires i < j < |ps| && Distinct(ps[..j]) && Settled(ps[..j]) && Safe(template, NamesOf(ps[..j]))
    requires forall p :: p in ps[..j] ==> Plain(p) && '{' !in p.value
    requires Plain(ps[j]) && ps[j].value == "}}" && m <= |ps[j].name| && ps[i].value == ps[j].name[m..] + "}"
    requires Somewhere(template, ps[i], ps[j], m)
    ensures Closings(Sequential(template, ps[..j + 1])) > Closings(Simultaneous(template, ps[..j + 1]))
  {
    hide Safe, Somewhere, Distinct, Settled, Sequential, Simultaneous, Replace;
    var before, p := ps[..j], ps[j];
    SequentialIsSimultaneous(template, before);
    assert before[i] == ps[i];
    MoreClosings(template, before, i, p, m);
    assert ps[..j + 1] == before + [p];
    SequentialExtended(template, before, p);
  }

  lemma MorePersists(template: string, ps: seq<Placeholder>, j: nat)
    requires j < |ps| && forall l :: j < l < |ps| ==> Plain(ps[l]) && ps[l].value == "}"
    requires Closings(Sequential(template, ps[..j + 1])) > Closings(Simultaneous(template, ps[..j + 1]))
    ensures Sequential(template, ps) != Simultaneous(template, ps)
  {
    hide Sequential, Simultaneous;
    LaterKeep(template, ps, j, |ps|);
    assert ps[..|ps|] == ps;
  }

  lemma SequentialExtended(template: string, before: seq<Placeholder>, p: Placeholder)
    ensures Sequential(template, before + [p]) == Replace(Sequential(template, before), Pattern(p), p.value)
  {
    assert (before + [p])[..|before|] == before;
  }

  lemma TellingApart(names: seq<string>, i: nat, j: nat, m: nat)
    requires Named(names) && i < j < |names| && m <= |names[j]|
    ensures BraceFree(names, Telling(names, i, j, m))
    ensures var ps := Paired(names, Telling(names, i, j, m));
      && Distinct(ps[..j]) && Settled(ps[..j]) && (forall p :: p in ps[..j] ==> Plain(p) && '{' !in p.value)
      && Plain(ps[j]) && ps[j].value == "}}" && ps[i].value == names[j][m..] + "}"
      && forall l :: j < l < |ps| ==> Plain(ps[l]) && ps[l].value == "}"
  {
    var ps := Paired(names, Telling(names, i, j, m));
    assert '{' !in names[j][m..];
    forall a, b | 0 <= a < b < j ensures Inert(ps[..j][a].value, Pattern(ps[..j][b])) {
      BracelessIsInert(ps[a].value, ps[b]);
    }
  }

  /**
   * A template gives the same either way for all brace-free values exactly when it nowhere begins a later placeholder
   * just before an earlier one.
   */
  lemma TemplateSafeIff(names: seq<string>, template: string)
    requires Named(names)
    ensures Agrees(names, template) <==> Safe(template, names)
  {
    if Safe(template, names) {
      forall values: seq<string> | BraceFree(names, values)
        ensures Sequential(template, Paired(names, values)) == Simultaneous(template, Paired(names, values))
      {
        var ps := Paired(names, values);
        forall a, b | 0 <= a < b < |ps| ensures Inert(ps[a].value, Pattern(ps[b])) {
          BracelessIsInert(ps[a].value, ps[b]);
        }
        assert NamesOf(ps) == names;
        SequentialIsSimultaneous(template, ps);
      }
    } else {
      assert names[..|names|] == names;
      var j := FirstUnsafe(template, names, |names|);
      var i, k, m := UnsafeAt(template, names, j);
      UnsafeDiffers(names, template, i, j, k, m);
      assert !Agrees(names, template);
    }
  }

  lemma UnsafeAt(template: string, names: seq<string>, j: nat) returns (i: nat, k: nat, m: nat)
    requires j < |names| && Safe(template, names[..j]) && !Safe(template, names[..j + 1])
    ensures i < j && PrimedAt(template, k, names[i], names[j], m)
  {
    var a, b :| 0 <= a < b < j + 1 && !SafeFor(template, names[..j + 1][a], names[..j + 1][b]);
    assert forall c, d :: 0 <= c < d < j ==> SafeFor(template, names[..j][c], names[..j][d]);
    assert b == j;
    i := a;
    k, m :| PrimedAt(template, k, names[i], names[j], m);
  }

  // ---------- a template with one placeholder ----------

  lemma BracelessKept(s: string, p: Placeholder)
    requires '{' !in s
    ensures Replace(s, Pattern(p), p.value) == s
  {
    BracelessIsInert(s, p);
    ReplacePasses(s, "", p);
    assert s + "" == s;
  }

  lemma OneReplaced(a: string, b: string, p: Placeholder)
    requires '{' !in a && '{' !in b
    ensures Replace(a + Pattern(p) + b, Pattern(p), p.value) == a + p.value + b
  {
    BracelessIsInert(a, p);
    assert a + Pattern(p) + b == a + (Pattern(p) + b);
    ReplacePasses(a, Pattern(p) + b, p);
    assert (Pattern(p) + b)[|Pattern(p)|..] == b;
    BracelessKept(b, p);
    assert a + (p.value + b) == a + p.value + b;
  }

  lemma OtherKept(a: string, b: string, name: string, p: Placeholder)
    requires '{' !in a && '{' !in b && '{' !in name && '}' !in name && Plain(p) && name != p.name
    ensures Replace(a + Braced(name) + b, Pattern(p), p.value) == a + Braced(name) + b
  {
    var tail := name + "}" + b;
    var s := Braced(name) + b;
    BracelessIsInert(a, p);
    BracedParts(name, b);
    BracelessKept(tail, p);
    hide *;
    if Text.StartsWith(s, Pattern(p)) {
      NameEnds(s, tail, name, b, p);
    }
    StepsOver(s, tail, p);
    ReplacePasses(a, s, p);
    Grouped(a, Braced(name), b);
  }

  lemma BracedParts(name: string, b: string)
    ensures Braced(name) + b == ['{'] + (name + "}" + b)
  {
  }

  lemma StepsOver(s: string, tail: string, p: Placeholder)
    requires s == ['{'] + tail && !Text.StartsWith(s, Pattern(p)) && Replace(tail, Pattern(p), p.value) == tail
    ensures Replace(s, Pattern(p), p.value) == s
  {
    assert s[1..] == tail;
  }

  lemma NameEnds(s: string, tail: string, name: string, b: string, p: Placeholder)
    requires Plain(p) && '}' !in name && tail == name + "}" + b && s == ['{'] + tail
    requires Text.StartsWith(s, Pattern(p))
    ensures name == p.name
  {
    var n := |p.name| + 1;
    var rest := s[n + 1..];
    assert Pattern(p) == ['{'] + (p.name + "}") && |Pattern(p)| == n + 1;
    assert s == Pattern(p) + rest;
    assert s[1..] == (p.name + "}") + rest;
    assert tail == p.name + ['}'] + rest;
    Text.SplitAtFirst(name, b, p.name, s[n + 1..], '}');
  }

  lemma {:induction false} AllKept(a: string, b: string, name: string, ps: seq<Placeholder>)
    requires '{' !in a && '{' !in b && '{' !in name && '}' !in name
    requires forall p :: p in ps ==> Plain(p) && name != p.name
    ensures Sequential(a + Braced(name) + b, ps) == a + Braced(name) + b
  {
    hide Replace, Pattern, Braced;
    if ps != [] {
      AllKept(a, b, name, ps[..|ps| - 1]);
      OtherKept(a, b, name, ps[|ps| - 1]);
    }
  }

  /** One placeholder between texts without an opening brace is replaced by its own value and nothing else is. */
  lemma {:induction false} OneFilled(a: string, b: string, ps: seq<Placeholder>, k: nat)
    requires '{' !in a && '{' !in b && k < |ps| && Named(NamesOf(ps)) && '{' !in ps[k].value
    ensures Sequential(a + Pattern(ps[k]) + b, ps) == a + ps[k].value + b
  {
    hide Replace, Pattern;
    var n := |ps| - 1;
    var before := ps[..n];
    assert NamesOf(before) == NamesOf(ps)[..n];
    assert forall l :: 0 <= l < |ps| ==> NamesOf(ps)[l] == ps[l].name;
    if k == n {
      forall p | p in before ensures Plain(p) && ps[k].name != p.name {
        var l :| 0 <= l < n && before[l] == p;
        assert NamesOf(ps)[l] != NamesOf(ps)[k];
      }
      PatternIs(ps[k]);
      AllKept(a, b, ps[k].name, before);
      OneReplaced(a, b, ps[k]);
    } else {
      OneFilled(a, b, before, k);
      BracelessKept(a + ps[k].value + b, ps[n]);
    }
  }

  lemma PatternIs(p: Placeholder)
    ensures Pattern(p) == Braced(p.name)
  {
  }
}
