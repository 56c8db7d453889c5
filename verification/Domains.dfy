/** Domain names as strings: normalisation, the string tests that match a name
    against a pattern, and what those tests mean for the labels of the name. */
module Domains {

  // ------------------------------------------------------------------
  // Normalisation
  // ------------------------------------------------------------------

  datatype CharClass = Space | Quote | Apostrophe | Dot

  predicate In(c: char, kind: CharClass) {
    match kind
    case Space => c == ' ' || '\t' <= c <= '\r'
    case Quote => c == '"'
    case Apostrophe => c == '\''
    case Dot => c == '.'
  }

  function TrimStart(s: string, kind: CharClass): (t: string)
    ensures |t| <= |s| && (|t| == |s| ==> t == s)
    ensures t == s <==> s == "" || !In(s[0], kind)
  {
    if s != "" && In(s[0], kind) then TrimStart(s[1..], kind) else s
  }

  function TrimEnd(s: string, kind: CharClass): (t: string)
    ensures |t| <= |s| && (|t| == |s| ==> t == s)
    ensures t == s <==> s == "" || !In(s[|s| - 1], kind)
  {
    if s != "" && In(s[|s| - 1], kind) then TrimEnd(s[..|s| - 1], kind) else s
  }

  function Trim(s: string, kind: CharClass): string {
    TrimEnd(TrimStart(s, kind), kind)
  }

  predicate StartsWithStar(s: string) {
    |s| >= 2 && s[0] == '*' && s[1] == '.'
  }

  /** `trim_start_matches("*.")`. */
  function TrimStars(s: string): (t: string)
    ensures |t| <= |s| && (|t| == |s| ==> t == s)
    ensures t == s <==> !StartsWithStar(s)
  {
    if StartsWithStar(s) then TrimStars(s[2..]) else s
  }

  function LowerChar(c: char): char {
    if 'A' <= c <= 'Z' then c - 'A' + 'a' else c
  }

  function Lower(s: string): (t: string)
    ensures |t| == |s|
  {
    if s == "" then "" else [LowerChar(s[0])] + Lower(s[1..])
  }

  function Unquoted(value: string): string {
    Trim(Trim(Trim(value, Space), Quote), Apostrophe)
  }

  function Undotted(value: string): string {
    TrimEnd(TrimStart(value, Dot), Dot)
  }

  /** `normalize_domain`. */
  function Normalize(value: string): string {
    Lower(Undotted(TrimStars(Unquoted(value))))
  }

  predicate Plain(c: char) {
    !In(c, Space) && !In(c, Quote) && !In(c, Apostrophe) && !In(c, Dot)
  }

  /** No step of the normalisation has anything to remove or change. */
  predicate InNormalForm(name: string) {
    && !StartsWithStar(name)
    && Lower(name) == name
    && (name != "" ==> Plain(name[0]) && Plain(name[|name| - 1]))
  }

  lemma NormalFormIsFixpoint(name: string)
    ensures Normalize(name) == name <==> InNormalForm(name)
  {
    var s1 := Trim(name, Space);
    var s2 := Trim(s1, Quote);
    var s3 := Trim(s2, Apostrophe);
    var s4 := TrimStars(s3);
    var s5 := TrimStart(s4, Dot);
    var s6 := TrimEnd(s5, Dot);
    if Normalize(name) == name {
      assert |s6| == |name|;
      assert s6 == s5 == s4 == s3 == s2 == s1 == name;
    }
  }

  lemma {:induction false} LowerEach(s: string)
    ensures forall i :: 0 <= i < |s| ==> Lower(s)[i] == LowerChar(s[i])
    ensures Lower(Lower(s)) == Lower(s)
  {
    if s != "" {
      LowerEach(s[1..]);
      var rest := Lower(s[1..]);
      assert Lower(s)[0] == LowerChar(s[0]) && Lower(s)[1..] == rest;
      assert forall i :: 0 < i < |s| ==> Lower(s)[i] == rest[i - 1] && s[1..][i - 1] == s[i];
    }
  }

  lemma LowerIs(s: string, t: string)
    requires |s| == |t| && forall i :: 0 <= i < |s| ==> LowerChar(s[i]) == t[i]
    ensures Lower(s) == t
  {
    LowerEach(s);
  }

  /** The same letter, or the two cases of one letter of the ASCII alphabet. */
  predicate SameLetter(c: char, d: char) {
    || c == d
    || ('A' <= c <= 'Z' && d as int == c as int + 32)
    || ('A' <= d <= 'Z' && c as int == d as int + 32)
  }

  predicate SameSpelling(s: string, t: string) {
    |s| == |t| && forall i :: 0 <= i < |s| ==> SameLetter(s[i], t[i])
  }

  /** Lower-casing identifies exactly the texts that differ in case only, and it leaves
      no capital letter. */
  lemma LowerIdentifiesCases(s: string, t: string)
    ensures Lower(s) == Lower(t) <==> SameSpelling(s, t)
    ensures forall i :: 0 <= i < |s| ==> SameLetter(Lower(s)[i], s[i]) && !('A' <= Lower(s)[i] <= 'Z')
  {
    LowerEach(s);
    LowerEach(t);
    forall i | 0 <= i < |s| ensures SameLetter(Lower(s)[i], s[i]) && !('A' <= Lower(s)[i] <= 'Z') {
      LowerCharIs(s[i], s[i]);
    }
    if Lower(s) == Lower(t) {
      forall i | 0 <= i < |s| ensures SameLetter(s[i], t[i]) {
        assert Lower(s)[i] == Lower(t)[i];
        LowerCharIs(s[i], t[i]);
      }
    }
    if SameSpelling(s, t) {
      forall i | 0 <= i < |s| ensures Lower(s)[i] == Lower(t)[i] {
        LowerCharIs(s[i], t[i]);
      }
    }
  }

  lemma LowerCharIs(c: char, d: char)
    ensures LowerChar(c) == LowerChar(d) <==> SameLetter(c, d)
    ensures SameLetter(LowerChar(c), c) && !('A' <= LowerChar(c) <= 'Z')
  {
  }

  lemma {:induction false} TrimStartSpelling(s: string, t: string, kind: CharClass)
    requires SameSpelling(s, t)
    ensures SameSpelling(TrimStart(s, kind), TrimStart(t, kind))
  {
    if s != "" {
      assert In(s[0], kind) <==> In(t[0], kind);
      if In(s[0], kind) {
        TrimStartSpelling(s[1..], t[1..], kind);
      }
    }
  }

  lemma {:induction false} TrimEndSpelling(s: string, t: string, kind: CharClass)
    requires SameSpelling(s, t)
    ensures SameSpelling(TrimEnd(s, kind), TrimEnd(t, kind))
  {
    if s != "" {
      var n := |s| - 1;
      assert SameLetter(s[n], t[n]) && (In(s[n], kind) <==> In(t[n], kind));
      if In(s[n], kind) {
        TrimEndSpelling(s[..n], t[..n], kind);
      }
    }
  }

  lemma {:induction false} TrimStarsSpelling(s: string, t: string)
    requires SameSpelling(s, t)
    ensures SameSpelling(TrimStars(s), TrimStars(t))
  {
    if |s| >= 2 {
      assert SameLetter(s[0], t[0]) && SameLetter(s[1], t[1]);
      if StartsWithStar(s) {
        TrimStarsSpelling(s[2..], t[2..]);
      }
    }
  }

  lemma TrimSpelling(s: string, t: string, kind: CharClass)
    requires SameSpelling(s, t)
    ensures SameSpelling(Trim(s, kind), Trim(t, kind))
  {
    TrimStartSpelling(s, t, kind);
    TrimEndSpelling(TrimStart(s, kind), TrimStart(t, kind), kind);
  }

  /** Two spellings of a name that differ in case only normalise alike. */
  lemma CaseDoesNotMatter(s: string, t: string)
    requires SameSpelling(s, t)
    ensures Normalize(s) == Normalize(t)
  {
    TrimSpelling(s, t, Space);
    TrimSpelling(Trim(s, Space), Trim(t, Space), Quote);
    TrimSpelling(Trim(Trim(s, Space), Quote), Trim(Trim(t, Space), Quote), Apostrophe);
    TrimStarsSpelling(Unquoted(s), Unquoted(t));
    var s1, t1 := TrimStars(Unquoted(s)), TrimStars(Unquoted(t));
    TrimStartSpelling(s1, t1, Dot);
    TrimEndSpelling(TrimStart(s1, Dot), TrimStart(t1, Dot), Dot);
    LowerIdentifiesCases(Undotted(s1), Undotted(t1));
  }

  /** What the trimming leaves is such that trimming again leaves it alone. */
  predicate Stable(trimmed: string) {
    trimmed == "" || (!StartsWithStar(trimmed) && Plain(trimmed[0]) && Plain(trimmed[|trimmed| - 1]))
  }

  lemma StableIsNormal(trimmed: string)
    ensures InNormalForm(Lower(trimmed)) <==> Stable(trimmed)
  {
    LowerEach(trimmed);
  }

  /** Normalising twice is normalising once exactly for the values whose trimmed text
      does not begin with another star, nor begins or ends with a space, a quote or
      a dot: the trims run once each, in one order, and may uncover one another. */
  lemma NormalizeIsIdempotentIff(value: string)
    ensures Normalize(Normalize(value)) == Normalize(value) <==> Stable(Undotted(TrimStars(Unquoted(value))))
  {
    NormalFormIsFixpoint(Normalize(value));
    StableIsNormal(Undotted(TrimStars(Unquoted(value))));
  }

  function Quoted(name: string): string {
    ['\"'] + name + ['\"']
  }

  /** A normal name in double quotes inside single quotes loses one pair in each pass. */
  lemma NormalizeIsNotIdempotent(name: string)
    requires name != "" && InNormalForm(name)
    ensures Normalize(['\''] + Quoted(name) + ['\'']) == Quoted(name)
    ensures Normalize(Quoted(name)) == name
  {
    TwiceQuoted(name);
    OnceQuoted(name);
    LowerConcat(['\"'] + name, ['\"']);
    LowerConcat(['\"'], name);
    LowerOfQuote();
  }

  lemma LowerOfQuote()
    ensures Lower(['\"']) == ['\"']
  {
    LowerEach(['\"']);
  }

  lemma TwiceQuoted(name: string)
    requires name != "" && InNormalForm(name)
    ensures Undotted(TrimStars(Unquoted(['\''] + Quoted(name) + ['\'']))) == Quoted(name)
  {
    var value, inner := ['\''] + Quoted(name) + ['\''], Quoted(name);
    assert value[0] == '\'' && value[|value| - 1] == '\'';
    assert Trim(value, Space) == value && Trim(value, Quote) == value;
    assert value[1..] == inner + ['\''] && (inner + ['\''])[..|inner|] == inner;
    assert inner[0] == '\"' && inner[|inner| - 1] == '\"';
    assert TrimStart(value, Apostrophe) == TrimStart(inner + ['\''], Apostrophe) == inner + ['\''];
    assert TrimEnd(inner + ['\''], Apostrophe) == TrimEnd(inner, Apostrophe) == inner;
  }

  lemma OnceQuoted(name: string)
    requires name != "" && InNormalForm(name)
    ensures Undotted(TrimStars(Unquoted(Quoted(name)))) == name
  {
    var value := Quoted(name);
    assert value[0] == '\"' && value[|value| - 1] == '\"';
    assert Trim(value, Space) == value;
    assert value[1..] == name + ['\"'] && (name + ['\"'])[..|name|] == name;
    assert TrimStart(value, Quote) == TrimStart(name + ['\"'], Quote) == name + ['\"'];
    assert TrimEnd(name + ['\"'], Quote) == TrimEnd(name, Quote) == name;
  }

  /** A lower-case text that normalisation changes gets shorter. */
  lemma NormalizeShortens(name: string)
    requires Lower(name) == name && !InNormalForm(name)
    ensures |Normalize(name)| < |name|
  {
    NormalFormIsFixpoint(name);
    var s4 := TrimStars(Unquoted(name));
    assert |Undotted(s4)| <= |s4| <= |Unquoted(name)| <= |name|;
    var s1 := Trim(name, Space);
    var s2 := Trim(s1, Quote);
    assert |Unquoted(name)| <= |s2| <= |s1| <= |name|;
  }

  lemma NormalizeNeverGrows(name: string)
    ensures |Normalize(name)| <= |name|
  {
    var s4 := TrimStars(Unquoted(name));
    assert |Undotted(s4)| <= |s4| <= |Unquoted(name)| <= |name|;
  }

  lemma WrappedTrims(name: string, c: char, kind: CharClass)
    requires In(c, kind) && name != "" && Plain(name[0]) && Plain(name[|name| - 1])
    ensures Trim([c] + name + [c], kind) == name
  {
    var value, rest := [c] + name + [c], name + [c];
    assert value[0] == c && value[1..] == rest && rest[..|name|] == name;
    assert TrimStart(value, kind) == TrimStart(rest, kind) == rest;
    assert TrimEnd(rest, kind) == TrimEnd(name, kind) == name;
  }

  /** Each layer around a normal name is taken off: white space, double or single
      quotes, dots, and a star with its dot. */
  lemma NormalizeUnwraps(name: string, c: char)
    requires name != "" && InNormalForm(name)
    requires c == ' ' || '\t' <= c <= '\r' || c == '"' || c == '\'' || c == '.'
    ensures Normalize([c] + name + [c]) == name
  {
    var value := [c] + name + [c];
    assert value[0] == c && value[|value| - 1] == c;
    NormalFormIsFixpoint(name);
    if c == '.' {
      WrappedTrims(name, c, Dot);
      assert Unquoted(value) == value && TrimStars(value) == value;
    } else if c == '"' {
      WrappedTrims(name, c, Quote);
    } else if c == '\'' {
      WrappedTrims(name, c, Apostrophe);
    } else {
      WrappedTrims(name, c, Space);
    }
  }

  lemma NormalizeUnstars(name: string)
    requires InNormalForm(name)
    ensures Normalize("*." + name) == name
  {
    var value := "*." + name;
    assert value[0] == '*' && value[1] == '.' && value[2..] == name;
    assert name != "" ==> value[|value| - 1] == name[|name| - 1];
    NormalFormIsFixpoint(name);
    assert Unquoted(value) == value && TrimStars(value) == TrimStars(name) == name;
    assert Undotted(name) == name;
  }

  // ------------------------------------------------------------------
  // Labels
  // ------------------------------------------------------------------

  /** The text before the first dot, and what follows that dot. */
  function Head(s: string): string {
    if s == "" || s[0] == '.' then "" else [s[0]] + Head(s[1..])
  }

  lemma {:induction false} HeadIsPrefix(s: string)
    ensures Head(s) <= s && '.' !in Head(s)
    ensures |Head(s)| < |s| ==> s[|Head(s)|] == '.'
  {
    if s != "" && s[0] != '.' {
      HeadIsPrefix(s[1..]);
    }
  }

  function Labels(s: string): seq<string> {
    HeadIsPrefix(s);
    if |Head(s)| == |s| then [s] else [Head(s)] + Labels(s[|Head(s)| + 1..])
  }

  function Join(labels: seq<string>): string
    requires labels != []
  {
    if |labels| == 1 then labels[0] else labels[0] + "." + Join(labels[1..])
  }

  ghost predicate LabelSuffix(pattern: string, name: string) {
    |Labels(pattern)| <= |Labels(name)| && Labels(name)[|Labels(name)| - |Labels(pattern)|..] == Labels(pattern)
  }

  lemma {:induction false} HeadConcat(a: string, b: string)
    ensures Head(a + "." + b) == Head(a)
  {
    if a != "" && a[0] != '.' {
      HeadConcat(a[1..], b);
      assert (a + "." + b)[1..] == a[1..] + "." + b;
    }
  }

  lemma {:induction false} LabelsConcat(a: string, b: string)
    ensures Labels(a + "." + b) == Labels(a) + Labels(b)
    decreases |a|
  {
    HeadConcat(a, b);
    HeadIsPrefix(a);
    var n := |Head(a)|;
    if n == |a| {
      assert Head(a) == a;
      assert (a + "." + b)[n + 1..] == b;
    } else {
      LabelsConcat(a[n + 1..], b);
      assert (a + "." + b)[n + 1..] == a[n + 1..] + "." + b;
    }
  }

  lemma SplitAtDot(s: string, n: nat)
    requires n < |s| && s[n] == '.'
    ensures s == s[..n] + "." + s[n + 1..]
  {
  }

  lemma {:induction false} JoinLabels(s: string)
    ensures Labels(s) != [] && Join(Labels(s)) == s
    decreases |s|
  {
    HeadIsPrefix(s);
    var n := |Head(s)|;
    if n < |s| {
      var rest := s[n + 1..];
      JoinLabels(rest);
      SplitAtDot(s, n);
      assert Labels(s) == [Head(s)] + Labels(rest);
      assert Labels(s)[1..] == Labels(rest);
    }
  }

  lemma {:induction false} JoinConcat(a: seq<string>, b: seq<string>)
    requires a != [] && b != []
    ensures Join(a + b) == Join(a) + "." + Join(b)
  {
    if |a| == 1 {
      assert (a + b)[1..] == b;
    } else {
      JoinConcat(a[1..], b);
      assert (a + b)[1..] == a[1..] + b;
    }
  }

  predicate EndsWith(s: string, suffix: string) {
    |suffix| <= |s| && s[|s| - |suffix|..] == suffix
  }

  /** The test of the dynamic tables: equal, or ending in a dot and the pattern. */
  predicate NameMatches(name: string, pattern: string) {
    name == pattern || EndsWith(name, "." + pattern)
  }

  /** The string test holds exactly when the labels of the pattern are the last
      labels of the name: a match never starts inside a label. */
  lemma NameMatchesIsLabelSuffix(name: string, pattern: string)
    ensures NameMatches(name, pattern) <==> LabelSuffix(pattern, name)
  {
    JoinLabels(name);
    JoinLabels(pattern);
    if EndsWith(name, "." + pattern) {
      var rest := name[..|name| - |pattern| - 1];
      assert name == rest + "." + pattern;
      LabelsConcat(rest, pattern);
    }
    if LabelSuffix(pattern, name) {
      var rest := Labels(name)[..|Labels(name)| - |Labels(pattern)|];
      assert Labels(name) == rest + Labels(pattern);
      if rest != [] {
        JoinConcat(rest, Labels(pattern));
        assert name == Join(rest) + "." + pattern;
      }
    }
  }

  // ------------------------------------------------------------------
  // Wildcards
  // ------------------------------------------------------------------

  /** `*` stands for any text, `?` for any one character. */
  predicate WildMatches(pattern: string, s: string)
    decreases |pattern| + |s|
  {
    if pattern == "" then s == ""
    else if pattern[0] == '*' then WildMatches(pattern[1..], s) || (s != "" && WildMatches(pattern, s[1..]))
    else s != "" && (pattern[0] == '?' || pattern[0] == s[0]) && WildMatches(pattern[1..], s[1..])
  }

  /** A question mark stands for one character, a star for any text, and any other
      character for itself. */
  lemma {:induction false} WildMatchesMeans(pattern: string, s: string)
    requires pattern != ""
    ensures pattern[0] == '?' ==> (WildMatches(pattern, s) <==> s != "" && WildMatches(pattern[1..], s[1..]))
    ensures pattern[0] == '*' ==>
              (WildMatches(pattern, s) <==> exists k :: 0 <= k <= |s| && WildMatches(pattern[1..], s[k..]))
    ensures pattern[0] != '?' && pattern[0] != '*' ==>
              (WildMatches(pattern, s) <==> s != "" && s[0] == pattern[0] && WildMatches(pattern[1..], s[1..]))
    decreases |s|
  {
    if pattern[0] == '*' {
      assert s[0..] == s;
      if s != "" {
        WildMatchesMeans(pattern, s[1..]);
        assert forall k :: 0 <= k <= |s[1..]| ==> s[1..][k..] == s[k + 1..];
        if k :| 0 <= k <= |s| && WildMatches(pattern[1..], s[k..]) {
          assert k > 0 ==> s[1..][k - 1..] == s[k..];
        }
        if k :| 0 <= k <= |s[1..]| && WildMatches(pattern[1..], s[1..][k..]) {
          assert s[1..][k..] == s[k + 1..];
        }
      }
    }
  }

  predicate WildcardFree(pattern: string) {
    '*' !in pattern && '?' !in pattern
  }

  lemma {:induction false} LiteralMatchesItself(pattern: string, s: string)
    requires WildcardFree(pattern)
    ensures WildMatches(pattern, s) <==> s == pattern
  {
    if pattern != "" && s != "" {
      LiteralMatchesItself(pattern[1..], s[1..]);
      assert s == [s[0]] + s[1..] && pattern == [pattern[0]] + pattern[1..];
    }
  }

  lemma {:induction false} StarMatchesSuffix(pattern: string, s: string)
    requires WildcardFree(pattern)
    ensures WildMatches("*" + pattern, s) <==> EndsWith(s, pattern)
    decreases |s|
  {
    assert ("*" + pattern)[1..] == pattern;
    LiteralMatchesItself(pattern, s);
    if s != "" {
      StarMatchesSuffix(pattern, s[1..]);
      if |pattern| < |s| {
        assert s[1..][|s| - 1 - |pattern|..] == s[|s| - |pattern|..];
      }
    }
  }

  lemma {:induction false} StarAbsorbs(pattern: string, front: string, s: string)
    requires WildMatches("*" + pattern, s)
    ensures WildMatches("*" + pattern, front + s)
    decreases |front|
  {
    if front == "" {
      assert front + s == s;
    } else {
      StarAbsorbs(pattern, front[1..], s);
      assert (front + s)[1..] == front[1..] + s;
    }
  }

  /** The two matchers compiled for a split domain. */
  predicate SplitPairMatches(domain: string, name: string) {
    WildMatches(domain, name) || WildMatches("*." + domain, name)
  }

  lemma SplitPairIsLabelSuffix(domain: string, name: string)
    requires WildcardFree(domain)
    ensures SplitPairMatches(domain, name) <==> LabelSuffix(domain, name)
  {
    LiteralMatchesItself(domain, name);
    StarMatchesSuffix("." + domain, name);
    assert "*" + ("." + domain) == "*." + domain;
    NameMatchesIsLabelSuffix(name, domain);
  }

  /** What the missing idempotence costs: an accepted split domain, asked for by its
      own name, is matched exactly when it is in normal form. The question is
      normalised twice on its way to the matchers, the domain only once. A parsed name
      ends in the dot of the root; a bare one is covered as well. */
  lemma OwnNameMatchesIff(raw: string, asked: string)
    requires WildcardFree(Normalize(raw))
    requires asked == Normalize(raw) + "." || asked == Normalize(raw)
    ensures SplitPairMatches(Normalize(raw), Normalize(Normalize(asked))) <==> InNormalForm(Normalize(raw))
  {
    var domain := Normalize(raw);
    var once := Normalize(asked);
    SplitPairIsLabelSuffix(domain, Normalize(once));
    NameMatchesIsLabelSuffix(Normalize(once), domain);
    LowerEach(Undotted(TrimStars(Unquoted(raw))));
    NormalFormIsFixpoint(domain);
    if InNormalForm(domain) {
      NormalWithRoot(domain);
    } else {
      NormalizeShortens(domain);
      NormalizeNeverGrows(once);
      RootNeverGrows(domain);
      assert |Normalize(once)| < |domain|;
    }
  }

  lemma SplitPairCoversSubdomain(domain: string, front: string, name: string)
    requires SplitPairMatches(domain, name)
    ensures SplitPairMatches(domain, front + "." + name)
  {
    var pattern := "." + domain;
    assert "*" + pattern == "*." + domain;
    if WildMatches(domain, name) {
      assert pattern[1..] == domain && ("." + name)[1..] == name;
      assert WildMatches(pattern, "." + name);
      assert ("*" + pattern)[1..] == pattern;
      StarAbsorbs(pattern, front, "." + name);
      assert front + ("." + name) == front + "." + name;
    } else {
      StarAbsorbs(pattern, front + ".", name);
    }
  }

  // ------------------------------------------------------------------
  // Normalising a subdomain
  // ------------------------------------------------------------------

  lemma {:induction false} TrimStartKeepsTail(front: string, tail: string, kind: CharClass)
    requires tail != "" && !In(tail[0], kind)
    ensures TrimStart(front + tail, kind) == TrimStart(front, kind) + tail
  {
    if front == "" {
      assert front + tail == tail;
    } else {
      assert (front + tail)[1..] == front[1..] + tail;
      if In(front[0], kind) {
        TrimStartKeepsTail(front[1..], tail, kind);
      }
    }
  }

  lemma {:induction false} TrimDots(front: string, tail: string)
    ensures TrimStart(front, Dot) == "" ==> TrimStart(front + tail, Dot) == TrimStart(tail, Dot)
    ensures TrimStart(front, Dot) != "" ==> TrimStart(front + tail, Dot) == TrimStart(front, Dot) + tail
  {
    if front == "" {
      assert front + tail == tail;
    } else {
      assert (front + tail)[1..] == front[1..] + tail;
      if In(front[0], Dot) {
        TrimDots(front[1..], tail);
      }
    }
  }

  lemma {:induction false} TrimStarsOfSubdomain(front: string, name: string) returns (rest: string)
    requires !StartsWithStar(name)
    ensures var t := TrimStars(front + "." + name); t == name || t == rest + "." + name
    decreases |front|
  {
    rest := front;
    var s := front + "." + name;
    if StartsWithStar(s) {
      if |front| == 1 {
        assert s[2..] == name;
      } else {
        rest := TrimStarsOfSubdomain(front[2..], name);
        assert s[2..] == front[2..] + "." + name;
      }
    }
  }

  lemma TrimOfSubdomain(front: string, name: string, kind: CharClass)
    requires name != "" && !In(name[|name| - 1], kind) && !kind.Dot?
    ensures Trim(front + ("." + name), kind) == TrimStart(front, kind) + ("." + name)
  {
    var tail := "." + name;
    assert tail[0] == '.' && tail[|tail| - 1] == name[|name| - 1];
    TrimStartKeepsTail(front, tail, kind);
    EndKept(TrimStart(front, kind), tail, kind);
  }

  lemma EndKept(front: string, tail: string, kind: CharClass)
    requires tail != "" && !In(tail[|tail| - 1], kind)
    ensures TrimEnd(front + tail, kind) == front + tail
  {
    assert (front + tail)[|front + tail| - 1] == tail[|tail| - 1];
  }

  lemma UnquotedSubdomain(front: string, name: string) returns (rest: string)
    requires name != "" && InNormalForm(name)
    ensures Unquoted(front + ("." + name)) == rest + ("." + name)
  {
    var f1 := TrimStart(front, Space);
    var f2 := TrimStart(f1, Quote);
    rest := TrimStart(f2, Apostrophe);
    TrimOfSubdomain(front, name, Space);
    TrimOfSubdomain(f1, name, Quote);
    TrimOfSubdomain(f2, name, Apostrophe);
  }

  lemma DotTrimmedSubdomain(front: string, name: string) returns (rest: string)
    requires name != "" && InNormalForm(name)
    ensures var t := Undotted(front + ("." + name));
            t == name || t == rest + ("." + name)
  {
    TrimDots(front, "." + name);
    TrimDots(".", name);
    assert "."[1..] == "" && ("." + name)[1..] == name;
    rest := TrimStart(front, Dot);
    EndKept(rest, "." + name, Dot);
    EndKept("", name, Dot);
    assert "" + name == name;
  }

  lemma {:induction false} LowerConcat(a: string, b: string)
    ensures Lower(a + b) == Lower(a) + Lower(b)
  {
    if a == "" {
      assert a + b == b;
    } else {
      LowerConcat(a[1..], b);
      assert (a + b)[1..] == a[1..] + b;
    }
  }

  lemma LoweredSubdomain(front: string, name: string)
    requires Lower(name) == name
    ensures Lower(front + ("." + name)) == Lower(front) + ("." + name)
  {
    LowerConcat(front, "." + name);
    LowerConcat(".", name);
    assert Lower(".") == "." by {
      assert "."[1..] == "";
    }
  }

  lemma UnstarredSubdomain(front: string, name: string) returns (rest: string)
    requires name != "" && InNormalForm(name)
    ensures var t := Undotted(TrimStars(front + ("." + name)));
            t == name || t == rest + ("." + name)
  {
    assert front + ("." + name) == front + "." + name;
    var f := TrimStarsOfSubdomain(front, name);
    if TrimStars(front + "." + name) == name {
      rest := "";
      assert TrimStart(name, Dot) == name;
      assert TrimEnd(name, Dot) == name;
    } else {
      assert f + "." + name == f + ("." + name);
      rest := DotTrimmedSubdomain(f, name);
    }
  }

  /** Putting anything and a dot before a normal name leaves, once normalised,
      either the name or something, a dot and the name. */
  lemma SubdomainNormalizes(front: string, name: string) returns (rest: string)
    requires name != "" && InNormalForm(name)
    ensures Normalize(front + "." + name) == name || Normalize(front + "." + name) == rest + "." + name
  {
    assert front + "." + name == front + ("." + name);
    var f3 := UnquotedSubdomain(front, name);
    var f5 := UnstarredSubdomain(f3, name);
    LoweredSubdomain(f5, name);
    rest := Lower(f5);
    assert rest + ("." + name) == rest + "." + name;
  }

  // ------------------------------------------------------------------
  // The dot of the root
  // ------------------------------------------------------------------

  /** A normal name is what is left of itself with the root's dot. */
  lemma NormalWithRoot(name: string)
    requires InNormalForm(name) && WildcardFree(name)
    ensures Normalize(name + ".") == name
  {
    var dotted := name + ".";
    assert dotted[|name|] == '.' && dotted[..|name|] == name;
    assert name != "" ==> dotted[0] == name[0];
    assert Unquoted(dotted) == dotted && TrimStars(dotted) == dotted;
    if name == "" {
      assert dotted[1..] == "" && TrimStart(dotted, Dot) == "";
    } else {
      assert TrimStart(dotted, Dot) == dotted && TrimEnd(dotted, Dot) == TrimEnd(name, Dot) == name;
    }
  }

  lemma UnquotedKeepsRoot(s: string) returns (rest: string)
    ensures Unquoted(s + ".") == rest + "." && |rest| <= |s| && (|rest| == |s| ==> rest == s)
  {
    var s1 := TrimStart(s, Space);
    var s2 := TrimStart(s1, Quote);
    rest := TrimStart(s2, Apostrophe);
    TrimKeepsRoot(s, Space);
    TrimKeepsRoot(s1, Quote);
    TrimKeepsRoot(s2, Apostrophe);
  }

  lemma TrimKeepsRoot(s: string, kind: CharClass)
    requires !kind.Dot?
    ensures Trim(s + ".", kind) == TrimStart(s, kind) + "."
  {
    TrimStartKeepsTail(s, ".", kind);
    EndKept(TrimStart(s, kind), ".", kind);
  }

  lemma {:induction false} TrimStarsLeavesEnd(s: string)
    ensures s[|s| - |TrimStars(s)|..] == TrimStars(s)
  {
    if StartsWithStar(s) {
      TrimStarsLeavesEnd(s[2..]);
    }
  }

  lemma {:induction false} TrimStartLeavesEnd(s: string, kind: CharClass)
    ensures s[|s| - |TrimStart(s, kind)|..] == TrimStart(s, kind)
  {
    if s != "" && In(s[0], kind) {
      TrimStartLeavesEnd(s[1..], kind);
    }
  }

  /** Undotting takes the final dot, and if it takes no more, just that. */
  lemma UndottedTakesRoot(s: string)
    requires s != "" && s[|s| - 1] == '.'
    ensures |Undotted(s)| < |s| && (|Undotted(s)| == |s| - 1 ==> Undotted(s) == s[..|s| - 1])
  {
    TrimStartLeavesEnd(s, Dot);
    var t := TrimStart(s, Dot);
    if t != "" {
      assert t[|t| - 1] == s[|s| - 1];
      assert TrimEnd(t, Dot) == TrimEnd(t[..|t| - 1], Dot);
    }
  }

  /** With the root's dot, a lower-case name normalises to itself or to something
      shorter. */
  lemma RootNeverGrows(name: string)
    requires Lower(name) == name
    ensures Normalize(name + ".") == name || |Normalize(name + ".")| < |name| || name == ""
  {
    var rest := UnquotedKeepsRoot(name);
    var dotted := rest + ".";
    var s := TrimStars(dotted);
    TrimStarsLeavesEnd(dotted);
    if s != "" {
      assert s[|s| - 1] == dotted[|dotted| - 1];
      UndottedTakesRoot(s);
      assert |s| == |dotted| ==> s[..|s| - 1] == rest;
    }
  }
}
