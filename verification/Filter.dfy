/**
  The line filter of `cmd/generate/cmd/filter.go`: drops the declarations of types that are
  generated elsewhere, as a function from the lines of a file to the lines kept.
 */
module Filter {
  import opened Characters
  import opened Sequences
  import opened Wrappers

  // ---- The regular expressions ----

  /** `\s` */
  predicate IsSpace(c: char) {
    c == ' ' || c == '\t' || c == '\n' || c == '\r' || c as int == 12
  }

  /** `\w` */
  predicate IsWord(c: char) {
    IsDigit(c) || 'A' <= c <= 'Z' || 'a' <= c <= 'z' || c == '_'
  }

  /** The classes by their character codes. */
  lemma ClassesAre(c: char)
    ensures IsSpace(c) <==> c as int in {9, 10, 12, 13, 32}
    ensures IsWord(c) <==> (48 <= c as int <= 57 || 65 <= c as int <= 90 || c as int == 95 || 97 <= c as int <= 122)
  {
  }

  /** The length of the longest prefix whose characters satisfy `p`. */
  function Span(s: string, p: char -> bool): (n: nat)
    ensures n <= |s|
  {
    if s != [] && p(s[0]) then 1 + Span(s[1..], p) else 0
  }

  predicate All(s: string, p: char -> bool) {
    forall i :: 0 <= i < |s| ==> p(s[i])
  }

  /** `a` is that prefix of `a + b` exactly if `b` does not go on with such a character. */
  lemma {:induction false} SpanOfConcat(a: string, b: string, p: char -> bool)
    requires All(a, p) && (b == "" || !p(b[0]))
    ensures Span(a + b, p) == |a|
    decreases |a|
  {
    if a == "" {
      assert a + b == b;
    } else {
      assert (a + b)[1..] == a[1..] + b;
      SpanOfConcat(a[1..], b, p);
    }
  }

  lemma {:induction false} SpanSplits(s: string, p: char -> bool)
    ensures All(s[..Span(s, p)], p) && (Span(s, p) < |s| ==> !p(s[Span(s, p)]))
    decreases |s|
  {
    if s != [] && p(s[0]) {
      SpanSplits(s[1..], p);
      assert s[..Span(s, p)] == [s[0]] + s[1..][..Span(s[1..], p)];
    }
  }

  /** The word in a match of `^\s+(\w+)(?:_\d+)?\s+`. The greedy word takes in any `_\d+`, and has to be
      followed by a space. */
  function WordAfterSpaces(s: string): Option<string> {
    var spaces := Span(s, IsSpace);
    var rest := s[spaces..];
    var word := Span(rest, IsWord);
    if spaces > 0 && 0 < word < |rest| && IsSpace(rest[word]) then Some(rest[..word]) else None
  }

  /** The word in a line that matches `^type\s+(\w+)(?:_\d+)?\s+`. */
  function DeclaredWord(line: string): Option<string> {
    if "type" <= line then WordAfterSpaces(line[4..]) else None
  }

  /** Spaces, the word, a space, and anything. */
  predicate SpacedWord(s: string, spaces: string, word: string, rest: string) {
    && s == spaces + (word + rest)
    && spaces != "" && All(spaces, IsSpace)
    && word != "" && All(word, IsWord)
    && rest != "" && IsSpace(rest[0])
  }

  /** The same after `type`. */
  predicate Declares(line: string, spaces: string, word: string, rest: string) {
    "type" <= line && SpacedWord(line[4..], spaces, word, rest)
  }

  lemma SplitAtSpan(s: string, p: char -> bool) returns (a: string, b: string)
    ensures s == a + b && a == s[..Span(s, p)] && b == s[Span(s, p)..] && All(a, p) && (b != "" ==> !p(b[0]))
  {
    a, b := s[..Span(s, p)], s[Span(s, p)..];
    SpanSplits(s, p);
  }

  lemma WordIsSpaced(s: string) returns (spaces: string, rest: string)
    requires WordAfterSpaces(s).Some?
    ensures SpacedWord(s, spaces, WordAfterSpaces(s).value, rest)
  {
    var tail, word;
    spaces, tail := SplitAtSpan(s, IsSpace);
    word, rest := SplitAtSpan(tail, IsWord);
  }

  lemma SpacedIsWord(s: string, spaces: string, word: string, rest: string)
    requires SpacedWord(s, spaces, word, rest)
    ensures WordAfterSpaces(s) == Some(word)
  {
    SpanOfConcat(spaces, word + rest, IsSpace);
    SpanOfConcat(word, rest, IsWord);
  }

  /** Which lines declare which word. */
  lemma DeclaredWordIff(line: string, word: string)
    ensures DeclaredWord(line) == Some(word) <==> exists spaces, rest :: Declares(line, spaces, word, rest)
  {
    if DeclaredWord(line) == Some(word) {
      var spaces, rest := WordIsSpaced(line[4..]);
      assert Declares(line, spaces, word, rest);
    } else if spaces, rest :| Declares(line, spaces, word, rest) {
      SpacedIsWord(line[4..], spaces, word, rest);
    }
  }

  function TrailingDigits(s: string): (n: nat)
    ensures n <= |s|
  {
    if s != [] && IsDigit(s[|s| - 1]) then 1 + TrailingDigits(s[..|s| - 1]) else 0
  }

  /** Removes a match of `_\d+$`. */
  function WithoutNumber(name: string): string {
    var n := TrailingDigits(name);
    if 0 < n < |name| && name[|name| - n - 1] == '_' then name[..|name| - n - 1] else name
  }

  /** `name` is `base`, an underscore and a number. */
  predicate Numbered(name: string, base: string) {
    && |base| + 1 < |name| && name[..|base|] == base && name[|base|] == '_'
    && AllDigits(name[|base| + 1..])
  }

  lemma {:induction false} TrailingDigitsOf(s: string)
    ensures AllDigits(s[|s| - TrailingDigits(s)..])
  {
    if s != [] && IsDigit(s[|s| - 1]) {
      TrailingDigitsOf(s[..|s| - 1]);
      assert s[|s| - TrailingDigits(s)..]
          == s[..|s| - 1][|s| - 1 - TrailingDigits(s[..|s| - 1])..] + [s[|s| - 1]];
    }
  }

  lemma {:induction false} DigitsAfter(s: string, k: nat)
    requires 0 < k <= |s| && !IsDigit(s[k - 1]) && AllDigits(s[k..])
    ensures TrailingDigits(s) == |s| - k
    decreases |s|
  {
    if k < |s| {
      assert s[k..][|s| - 1 - k] == s[|s| - 1];
      assert s[k..] == s[..|s| - 1][k..] + [s[|s| - 1]];
      DigitsAfter(s[..|s| - 1], k);
    }
  }

  lemma NumberIsRemoved(name: string, base: string)
    requires Numbered(name, base)
    ensures WithoutNumber(name) == base
  {
    DigitsAfter(name, |base| + 1);
  }

  /** A number is removed once, together with its underscore; a name without one stays. */
  lemma WithoutNumberIff(name: string, base: string)
    ensures WithoutNumber(name) == base <==>
            Numbered(name, base) || (base == name && forall b :: !Numbered(name, b))
  {
    if WithoutNumber(name) != name {
      TrailingDigitsOf(name);
      assert Numbered(name, WithoutNumber(name));
    }
    forall b | Numbered(name, b) ensures WithoutNumber(name) == b {
      NumberIsRemoved(name, b);
    }
  }

  /** The type in a line that declares one, without its number. */
  function DeclaredType(line: string): Option<string> {
    match DeclaredWord(line)
    case Some(word) => Some(WithoutNumber(word))
    case None => None
  }

  /** What the filter goes by: which type a line declares, and which types conflict. All results
      below hold whatever these are. */
  datatype Rules = Rules(declared: string -> Option<string>, conflicting: set<string>)

  const SOURCE_RULES := Rules(DeclaredType, {
    "ContentBlock", "SessionUpdate", "ToolCallContent", "ToolKind", "ToolCallStatus",
    "PlanEntryStatus", "PlanEntryPriority", "PermissionOptionKind", "StopReason"
  })

  predicate Contains(s: string, t: string) {
    exists i | 0 <= i <= |s| :: t <= s[i..]
  }

  lemma ContainsIff(s: string, t: string)
    ensures Contains(s, t) <==> exists before, after :: s == before + t + after
  {
    if i :| 0 <= i <= |s| && t <= s[i..] {
      assert s == s[..i] + t + s[i..][|t|..];
    }
    forall before, after | s == before + t + after ensures Contains(s, t) {
      assert s[|before|..] == t + after;
    }
  }

  // ---- Regions ----

  predicate Conflicts(r: Rules, line: string) {
    r.declared(line).Some? && r.declared(line).value in r.conflicting
  }

  /** A line that ends the region of a conflicting type: any type declaration, or a line that begins
      like one and does not mention the type. */
  predicate EndsRegion(r: Rules, line: string, typeName: string) {
    r.declared(line).Some? || ("type " <= line && !Contains(line, typeName))
  }

  /** Among the first `n` lines, line `j` declares a conflicting type and no later one ends its region. */
  predicate OpenAt(r: Rules, lines: seq<string>, n: nat, j: nat)
    requires n <= |lines|
  {
    && j < n && Conflicts(r, lines[j])
    && forall k :: j < k < n ==> !EndsRegion(r, lines[k], r.declared(lines[j]).value)
  }

  /** The last of the first `n` lines lies in the region of a conflicting type. */
  ghost predicate Suppressed(r: Rules, lines: seq<string>, n: nat)
    requires n <= |lines|
  {
    exists j: nat :: OpenAt(r, lines, n, j)
  }

  /** The first `n` lines without those that are suppressed. */
  ghost function Kept(r: Rules, lines: seq<string>, n: nat): seq<string>
    requires n <= |lines|
  {
    if n == 0 then []
    else if Suppressed(r, lines, n) then Kept(r, lines, n - 1)
    else Kept(r, lines, n - 1) + [lines[n - 1]]
  }

  /** One more line: it is suppressed if it declares a conflicting type, or if the region open so far,
      of which there is at most one, does not end with it. */
  lemma Advance(r: Rules, lines: seq<string>, n: nat, open: bool, start: nat)
    requires n < |lines| && (open ==> OpenAt(r, lines, n, start)) && (Suppressed(r, lines, n) ==> open)
    ensures Suppressed(r, lines, n + 1) <==>
              || Conflicts(r, lines[n])
              || (open && !EndsRegion(r, lines[n], r.declared(lines[start]).value))
  {
    if Conflicts(r, lines[n]) {
      assert OpenAt(r, lines, n + 1, n);
    } else if open && !EndsRegion(r, lines[n], r.declared(lines[start]).value) {
      assert OpenAt(r, lines, n + 1, start);
    } else if Suppressed(r, lines, n + 1) {
      var j: nat :| OpenAt(r, lines, n + 1, j);
      assert OpenAt(r, lines, n, j);
    }
  }

  /** `doFilter`, from its scanner to its `filteredLines`: keeps exactly the lines outside the
      regions of conflicting types. */
  method DoFilter(r: Rules, lines: seq<string>) returns (filteredLines: seq<string>)
    ensures filteredLines == Kept(r, lines, |lines|)
  {
    filteredLines := [];
    var skipUntilNextType := false;
    var currentType := "";
    ghost var start: nat := 0;
    for i := 0 to |lines|
      invariant filteredLines == Kept(r, lines, i)
      invariant skipUntilNextType ==> OpenAt(r, lines, i, start) && currentType == r.declared(lines[start]).value
      invariant Suppressed(r, lines, i) ==> skipUntilNextType
    {
      var line := lines[i];
      var declared := r.declared(line);
      Advance(r, lines, i, skipUntilNextType, start);
      if declared.Some? {
        if declared.value in r.conflicting {
          skipUntilNextType := true;
          currentType := declared.value;
          start := i;
          continue;
        }
        skipUntilNextType := false;
        currentType := "";
      }
      if skipUntilNextType {
        if "type " <= line && !Contains(line, currentType) {
          skipUntilNextType := false;
          filteredLines := filteredLines + [line];
        }
        continue;
      }
      filteredLines := filteredLines + [line];
    }
  }

  // ---- What the filter achieves ----

  /** The output leaves lines out and changes nothing else; none of it declares a conflicting type. */
  lemma {:induction false} KeptIsCleanSubsequence(r: Rules, lines: seq<string>, n: nat)
    requires n <= |lines|
    ensures Subsequence(Kept(r, lines, n), lines[..n])
    ensures forall line <- Kept(r, lines, n) :: !Conflicts(r, line)
  {
    if n > 0 {
      KeptIsCleanSubsequence(r, lines, n - 1);
      SubsequenceExtends(Kept(r, lines, n - 1), lines[..n - 1], lines[n - 1]);
      assert lines[..n] == lines[..n - 1] + [lines[n - 1]];
      if Conflicts(r, lines[n - 1]) {
        assert OpenAt(r, lines, n, n - 1);
      }
    }
  }

  lemma {:induction false} CleanLinesAreKept(r: Rules, lines: seq<string>, n: nat)
    requires n <= |lines| && forall line <- lines :: !Conflicts(r, line)
    ensures Kept(r, lines, n) == lines[..n]
  {
    if n > 0 {
      CleanLinesAreKept(r, lines, n - 1);
      assert forall j :: 0 <= j < n ==> lines[j] in lines;
      assert lines[..n] == lines[..n - 1] + [lines[n - 1]];
    }
  }

  /** Filtering twice is filtering once; and a file is left alone exactly if nothing in it conflicts. */
  lemma FilterIsIdempotent(r: Rules, lines: seq<string>)
    ensures var once := Kept(r, lines, |lines|); Kept(r, once, |once|) == once
    ensures Kept(r, lines, |lines|) == lines <==> forall line <- lines :: !Conflicts(r, line)
  {
    var once := Kept(r, lines, |lines|);
    KeptIsCleanSubsequence(r, lines, |lines|);
    CleanLinesAreKept(r, once, |once|);
    assert once[..|once|] == once && lines[..|lines|] == lines;
    if forall line <- lines :: !Conflicts(r, line) {
      CleanLinesAreKept(r, lines, |lines|);
    }
  }

  lemma ConflictingAreWithoutNumbers(name: string)
    ensures name in SOURCE_RULES.conflicting ==> WithoutNumber(name) == name
  {
    if name in SOURCE_RULES.conflicting {
      assert !IsDigit(name[|name| - 1]);
    }
  }

  /** The fate of one line, by the line and the region it is in: a declaration is dropped exactly if it is
      of a conflicting type; any other line is dropped exactly if some earlier line opened a region that is
      still open, and the line does not begin with `type ` without mentioning that type. */
  lemma FateOfLine(r: Rules, lines: seq<string>, n: nat)
    requires n < |lines|
    ensures r.declared(lines[n]).Some? ==>
              (Suppressed(r, lines, n + 1) <==> r.declared(lines[n]).value in r.conflicting)
    ensures r.declared(lines[n]).None? ==>
              (Suppressed(r, lines, n + 1) <==>
               exists j: nat :: OpenAt(r, lines, n, j)
                 && !("type " <= lines[n] && !Contains(lines[n], r.declared(lines[j]).value)))
    ensures Kept(r, lines, n + 1) == Kept(r, lines, n) + if Suppressed(r, lines, n + 1) then [] else [lines[n]]
  {
    if Conflicts(r, lines[n]) {
      assert OpenAt(r, lines, n + 1, n);
    }
    forall j: nat | j < n ensures OpenAt(r, lines, n + 1, j) <==>
                                  OpenAt(r, lines, n, j) && !EndsRegion(r, lines[n], r.declared(lines[j]).value) {
    }
  }

  lemma SourceDropsConflicting(lines: seq<string>, n: nat, spaces: string, word: string, rest: string)
    requires n < |lines| && Declares(lines[n], spaces, word, rest)
    ensures Suppressed(SOURCE_RULES, lines, n + 1) <==> WithoutNumber(word) in SOURCE_RULES.conflicting
  {
    DeclaredWordIff(lines[n], word);
    var r := SOURCE_RULES;
    assert r.declared(lines[n]) == Some(WithoutNumber(word));
    FateOfLine(r, lines, n);
  }

  /** With the source's rules: a line that declares a type is dropped iff the type, without its number, is
      one of nine. */
  lemma NineTypesAreDropped(lines: seq<string>, n: nat, spaces: string, word: string, rest: string)
    requires n < |lines| && Declares(lines[n], spaces, word, rest)
    ensures Suppressed(SOURCE_RULES, lines, n + 1) <==>
            WithoutNumber(word) in {"ContentBlock", "SessionUpdate", "ToolCallContent", "ToolKind", "ToolCallStatus",
                                    "PlanEntryStatus", "PlanEntryPriority", "PermissionOptionKind", "StopReason"}
  {
    SourceDropsConflicting(lines, n, spaces, word, rest);
  }

  lemma NoConflictSurvives(lines: seq<string>, line: string, spaces: string, word: string, rest: string)
    requires line in Kept(SOURCE_RULES, lines, |lines|) && Declares(line, spaces, word, rest)
    ensures forall name <- SOURCE_RULES.conflicting :: word != name && !Numbered(word, name)
  {
    KeptIsCleanSubsequence(SOURCE_RULES, lines, |lines|);
    DeclaredWordIff(line, word);
    assert SOURCE_RULES.declared(line) == Some(WithoutNumber(word));
    forall name | name in SOURCE_RULES.conflicting ensures !Numbered(word, name) {
      WithoutNumberIff(word, name);
    }
    ConflictingAreWithoutNumbers(word);
  }

  /** With the source's rules: no line of the output declares a conflicting type, with or without a
      number, however it is spaced. */
  lemma NoDuplicateSurvives(lines: seq<string>, line: string, spaces: string, word: string, rest: string)
    requires line in Kept(SOURCE_RULES, lines, |lines|) && Declares(line, spaces, word, rest)
    ensures forall name <- {"ContentBlock", "SessionUpdate", "ToolCallContent", "ToolKind", "ToolCallStatus",
                            "PlanEntryStatus", "PlanEntryPriority", "PermissionOptionKind", "StopReason"} ::
              word != name && !Numbered(word, name)
  {
    NoConflictSurvives(lines, line, spaces, word, rest);
  }
}
