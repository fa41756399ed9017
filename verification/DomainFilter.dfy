/** The domain filter: patterns sorted into exact names, globs and regular expressions. */
module DomainFilter {
  import opened Bytes

  const TILDE: byte := 0x7E
  const STAR: byte := 0x2A
  const QUESTION: byte := 0x3F

  /** The glob and regular-expression libraries: what compiles, and what a compiled pattern matches. */
  datatype Matchers = Matchers(
    globCompiles: Text -> bool, globMatches: (Text, Text) -> bool,
    regexCompiles: Text -> bool, regexMatches: (Text, Text) -> bool)

  datatype Filter = Filter(globs: Option<seq<Text>>, regexes: Option<seq<Text>>, exact: set<Text>)

  predicate IsRegex(pattern: Text) {
    pattern != [] && pattern[0] == TILDE
  }

  predicate IsGlob(pattern: Text) {
    !IsRegex(pattern) && (STAR in pattern || QUESTION in pattern)
  }

  /** The expression after the tilde. */
  function Expression(pattern: Text): Text
    requires IsRegex(pattern)
  {
    Utf8Cut(pattern, 0);
    pattern[1..]
  }

  predicate Compiles(m: Matchers, pattern: Text) {
    if IsRegex(pattern) then m.regexCompiles(Expression(pattern))
    else if IsGlob(pattern) then m.globCompiles(pattern)
    else true
  }

  /** One pattern under its own kind. */
  predicate PatternMatches(m: Matchers, pattern: Text, domain: Text) {
    if IsRegex(pattern) then m.regexMatches(Expression(pattern), domain)
    else if IsGlob(pattern) then m.globMatches(pattern, domain)
    else pattern == domain
  }

  /** The kinds: an expression after `~`, a glob with `*` or `?` in it, or a name. */
  lemma KindsAre(pattern: Text)
    ensures IsRegex(pattern) <==> |pattern| > 0 && pattern[0] == 0x7E
    ensures IsRegex(pattern) ==> pattern == [0x7E] + Expression(pattern) && !IsGlob(pattern)
    ensures !IsRegex(pattern) ==>
              (IsGlob(pattern) <==> exists i :: 0 <= i < |pattern| && (pattern[i] == 0x2A || pattern[i] == 0x3F))
  {
  }

  /** The linear scan. */
  ghost predicate SomeMatches(m: Matchers, patterns: seq<Text>, domain: Text) {
    exists i :: 0 <= i < |patterns| && PatternMatches(m, patterns[i], domain)
  }

  /** The three buckets, asked in turn. */
  predicate Matches(m: Matchers, f: Filter, domain: Text) {
    || domain in f.exact
    || (f.globs.Some? && exists g :: g in f.globs.value && m.globMatches(g, domain))
    || (f.regexes.Some? && exists r :: r in f.regexes.value && m.regexMatches(r, domain))
  }

  predicate IsEmpty(f: Filter) {
    f.exact == {} && f.globs.None? && f.regexes.None?
  }

  /** The buckets hold exactly the patterns, each under its kind. */
  ghost predicate Sorted(patterns: seq<Text>, globs: seq<Text>, regexes: seq<Text>, exact: set<Text>) {
    && (forall g :: g in globs <==> g in patterns && IsGlob(g))
    && (forall e :: e in exact <==> e in patterns && !IsGlob(e) && !IsRegex(e))
    && (forall i :: 0 <= i < |patterns| && IsRegex(patterns[i]) ==> Expression(patterns[i]) in regexes)
    && (forall r :: r in regexes ==> exists p :: p in patterns && IsRegex(p) && Expression(p) == r)
  }

  ghost predicate Compiled(m: Matchers, patterns: seq<Text>, f: Filter) {
    var globs := if f.globs.Some? then f.globs.value else [];
    var regexes := if f.regexes.Some? then f.regexes.value else [];
    && Sorted(patterns, globs, regexes, f.exact)
    && (f.globs.Some? <==> globs != []) && (f.regexes.Some? <==> regexes != [])
  }

  /** Sorts the patterns; a list with a pattern that does not compile is refused. */
  method NewFilter(m: Matchers, patterns: seq<Text>) returns (r: Option<Filter>)
    ensures r.Some? <==> forall p :: p in patterns ==> Compiles(m, p)
    ensures r.Some? ==> Compiled(m, patterns, r.value)
  {
    var globs: seq<Text> := [];
    var regexes: seq<Text> := [];
    var exact: set<Text> := {};
    var hasGlobs := false;
    for i := 0 to |patterns|
      invariant Sorted(patterns[..i], globs, regexes, exact)
      invariant hasGlobs <==> globs != []
      invariant forall p :: p in patterns[..i] && !IsRegex(p) ==> Compiles(m, p)
    {
      var pattern := patterns[i];
      assert patterns[..i + 1] == patterns[..i] + [pattern];
      if pattern != [] && pattern[0] == TILDE {
        regexes := regexes + [Expression(pattern)];
      } else if STAR in pattern || QUESTION in pattern {
        if !m.globCompiles(pattern) {
          assert pattern in patterns;
          return None;
        }
        globs := globs + [pattern];
        hasGlobs := true;
      } else {
        exact := exact + {pattern};
      }
    }
    assert patterns[..|patterns|] == patterns;
    if exists e :: e in regexes && !m.regexCompiles(e) {
      return None;
    }
    return Some(Filter(if hasGlobs then Some(globs) else None, if regexes != [] then Some(regexes) else None, exact));
  }

  /** The compiled filter decides exactly what the linear scan over the patterns decides. */
  lemma FilterRefinesScan(m: Matchers, patterns: seq<Text>, f: Filter, domain: Text)
    requires Compiled(m, patterns, f)
    ensures Matches(m, f, domain) <==> SomeMatches(m, patterns, domain)
  {
  }

  /** Order and repetition of the patterns do not matter. */
  lemma FilterIgnoresOrder(m: Matchers, a: seq<Text>, b: seq<Text>, f: Filter, g: Filter, domain: Text)
    requires Compiled(m, a, f) && Compiled(m, b, g)
    requires forall p :: p in a <==> p in b
    ensures Matches(m, f, domain) <==> Matches(m, g, domain)
    ensures f.exact == g.exact
  {
  }

  lemma HasFirst(s: seq<Text>)
    ensures s == [] || s[0] in s
  {
  }

  /** A filter is empty exactly when it was made from no patterns, and then it matches nothing. */
  lemma EmptyIff(m: Matchers, patterns: seq<Text>, f: Filter)
    requires Compiled(m, patterns, f)
    ensures IsEmpty(f) <==> patterns == []
    ensures IsEmpty(f) ==> forall domain :: !Matches(m, f, domain)
  {
    var globs := if f.globs.Some? then f.globs.value else [];
    var regexes := if f.regexes.Some? then f.regexes.value else [];
    if patterns != [] {
      var p := patterns[0];
      assert p in patterns;
      assert p in globs || p in f.exact || (IsRegex(p) && Expression(p) in regexes);
    } else {
      HasFirst(globs);
      HasFirst(regexes);
    }
  }
}
