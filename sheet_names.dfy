/** The pure part of `BankAccountManager._generate_sheet_name`: choosing the
    base name, cleaning it for use as a spreadsheet tab title, and the
    numbered candidates tried when the cleaned name is already taken. */
module SheetNames {
  import opened Wrappers
  import opened Strings

  /** Longest title the truncation step lets through. */
  const MaxTitle := 100

  /** `account_name or institution_name`: an empty or missing account name
      falls back to the institution name, which may itself be missing. */
  function BaseName(institutionName: Option<string>, accountName: Option<string>): (r: Option<string>)
    ensures r.None? <==> (accountName.None? || accountName.value == "") && institutionName.None?
    ensures accountName.Some? && accountName.value != "" ==> r == accountName
    ensures r != accountName ==> r == institutionName
  {
    if accountName.Some? && accountName.value != "" then accountName else institutionName
  }

  /** The characters that `[^\w\s-]` does not match. */
  predicate Allowed(c: char) {
    IsWordChar(c) || IsSpace(c) || c == '-'
  }

  /** `re.sub(r'[^\w\s-]', '', s)`: the allowed characters of `s`, in
      order, none added. */
  function StripDisallowed(s: string): (r: string)
    ensures |r| <= |s|
    ensures forall c :: c in r <==> c in s && Allowed(c)
  {
    if s == [] then []
    else (if Allowed(s[0]) then [s[0]] else []) + StripDisallowed(s[1..])
  }

  /** `s.lstrip()`: drops exactly the leading run of whitespace. */
  function TrimStart(s: string): (r: string)
    ensures |r| <= |s| && r == s[|s| - |r|..]
    ensures r == [] || !IsSpace(r[0])
  {
    if s != [] && IsSpace(s[0]) then
      var r := TrimStart(s[1..]);
      assert s[1..][|s| - 1 - |r|..] == s[|s| - |r|..];
      r
    else s
  }

  /** `s.rstrip()`: drops exactly the trailing run of whitespace. */
  function TrimEnd(s: string): (r: string)
    ensures |r| <= |s| && r == s[..|r|]
    ensures r == [] || !IsSpace(r[|r| - 1])
  {
    if s != [] && IsSpace(s[|s| - 1]) then
      var init := s[..|s| - 1];
      var r := TrimEnd(init);
      assert init[..|r|] == s[..|r|];
      r
    else s
  }

  /** `re.sub(r'\s+', ' ', s)`: every maximal run of whitespace becomes one
      space; `CollapseKeepsWords` shows the words stay as they were. */
  function Collapse(s: string): (r: string)
    ensures |s| > 0 ==> |r| > 0 && (r[0] == ' ' <==> IsSpace(s[0]))
    ensures forall c :: c in r ==> c == ' ' || (c in s && !IsSpace(c))
    ensures forall i :: 0 <= i < |r| - 1 ==> !(r[i] == ' ' && r[i + 1] == ' ')
    decreases |s|
  {
    if s == [] then []
    else if IsSpace(s[0]) then [' '] + Collapse(TrimStart(s[1..]))
    else [s[0]] + Collapse(s[1..])
  }

  /** Collapsing ends in a space exactly when the input ends in whitespace. */
  lemma {:induction false} CollapseLast(s: string)
    requires s != []
    ensures Collapse(s)[|Collapse(s)| - 1] == ' ' <==> IsSpace(s[|s| - 1])
    decreases |s|
  {
    var r := Collapse(s);
    var t := s[1..];
    if IsSpace(s[0]) {
      var rest := TrimStart(t);
      assert r == [' '] + Collapse(rest);
      if rest == [] {
        if t != [] {
          TrimStartDropsSpace(t);
          assert IsSpace(t[|t| - 1]);
          assert t[|t| - 1] == s[|s| - 1];
        }
      } else {
        CollapseLast(rest);
        assert rest[|rest| - 1] == s[|s| - 1];
      }
    } else if t != [] {
      assert r == [s[0]] + Collapse(t);
      CollapseLast(t);
      assert t[|t| - 1] == s[|s| - 1];
    }
  }

  /** Collapsing keeps the words. */
  lemma {:induction false} CollapseKeepsWords(s: string)
    ensures Words(Collapse(s)) == Words(s)
    decreases |s|
  {
    if s != [] {
      var r := Collapse(s);
      if IsSpace(s[0]) {
        var rest := TrimStart(s[1..]);
        CollapseKeepsWords(rest);
        WordsTrimStart(s[1..]);
        assert r[1..] == Collapse(rest);
      } else {
        var tail := Collapse(s[1..]);
        CollapseKeepsWords(s[1..]);
        assert r[1..] == tail;
        if tail != [] {
          assert tail[0] in tail;
          assert r[1] == tail[0];
        }
      }
    }
  }

  /** `lstrip` drops only whitespace, so it keeps every other character. */
  lemma {:induction false} TrimStartDropsSpace(s: string)
    ensures forall i :: 0 <= i < |s| - |TrimStart(s)| ==> IsSpace(s[i])
    ensures NonSpace(TrimStart(s)) == NonSpace(s)
    decreases |s|
  {
    if s != [] && IsSpace(s[0]) {
      var r := TrimStart(s[1..]);
      TrimStartDropsSpace(s[1..]);
      assert forall i :: 1 <= i < |s| - |r| ==> s[i] == s[1..][i - 1];
      assert NonSpace(s) == NonSpace(s[1..]);
    }
  }

  /** `rstrip` drops only whitespace, so it keeps every other character. */
  lemma {:induction false} TrimEndDropsSpace(s: string)
    ensures forall i :: |TrimEnd(s)| <= i < |s| ==> IsSpace(s[i])
    ensures NonSpace(TrimEnd(s)) == NonSpace(s)
    decreases |s|
  {
    if s != [] && IsSpace(s[|s| - 1]) {
      var init := s[..|s| - 1];
      TrimEndDropsSpace(init);
      assert forall i :: 0 <= i < |s| - 1 ==> s[i] == init[i];
      assert s == init + [s[|s| - 1]];
      SpaceSnocNonSpace(init, s[|s| - 1]);
    }
  }

  /** Stripping keeps exactly the word characters and hyphens among the
      non-whitespace characters, in order. */
  lemma {:induction false} StripDisallowedKeepsWords(s: string)
    ensures NonSpace(StripDisallowed(s)) == WordsAndHyphens(s)
    decreases |s|
  {
    if s != [] {
      var head := if Allowed(s[0]) then [s[0]] else [];
      NonSpaceAppend(head, StripDisallowed(s[1..]));
      StripDisallowedKeepsWords(s[1..]);
    }
  }

  /** Collapsing whitespace keeps every other character, in order. */
  lemma {:induction false} CollapseKeepsNonSpace(s: string)
    ensures NonSpace(Collapse(s)) == NonSpace(s)
    decreases |s|
  {
    if s != [] {
      if IsSpace(s[0]) {
        var rest := TrimStart(s[1..]);
        NonSpaceAppend([' '], Collapse(rest));
        CollapseKeepsNonSpace(rest);
        TrimStartDropsSpace(s[1..]);
      } else {
        NonSpaceAppend([s[0]], Collapse(s[1..]));
        CollapseKeepsNonSpace(s[1..]);
      }
    }
  }

  // ---- words: `s.split()` and `" ".join(...)` ---------------------------

  /** `s.split()`: the maximal runs of non-whitespace characters, in order. */
  function Words(s: string): (ws: seq<string>)
    ensures s != [] && !IsSpace(s[0]) ==> ws != []
    decreases |s|
  {
    if s == [] then []
    else if IsSpace(s[0]) then Words(s[1..])
    else
      var rest := Words(s[1..]);
      if |s| > 1 && !IsSpace(s[1]) then [[s[0]] + rest[0]] + rest[1..]
      else [[s[0]]] + rest
  }

  /** `" ".join(ws)`. */
  function JoinSpaced(ws: seq<string>): string {
    if ws == [] then [] else if |ws| == 1 then ws[0] else ws[0] + " " + JoinSpaced(ws[1..])
  }

  /** Dropping leading whitespace keeps the words. */
  lemma {:induction false} WordsTrimStart(s: string)
    ensures Words(TrimStart(s)) == Words(s)
  {
    if s != [] && IsSpace(s[0]) {
      WordsTrimStart(s[1..]);
    }
  }

  /** A whitespace character at the end adds no word. */
  lemma {:induction false} WordsSpaceSnoc(s: string, c: char)
    requires IsSpace(c)
    ensures Words(s + [c]) == Words(s)
    decreases |s|
  {
    var t := s + [c];
    if s == [] {
      assert t[1..] == [];
    } else {
      assert t[0] == s[0] && t[1..] == s[1..] + [c];
      WordsSpaceSnoc(s[1..], c);
      if |s| > 1 {
        assert t[1] == s[1];
      }
    }
  }

  /** Dropping trailing whitespace keeps the words. */
  lemma {:induction false} WordsTrimEnd(s: string)
    ensures Words(TrimEnd(s)) == Words(s)
  {
    if s != [] && IsSpace(s[|s| - 1]) {
      var init := s[..|s| - 1];
      assert s == init + [s[|s| - 1]];
      WordsSpaceSnoc(init, s[|s| - 1]);
      WordsTrimEnd(init);
    }
  }

  /** No two consecutive spaces. */
  predicate NoDoubleSpace(s: string) {
    forall i :: 0 <= i < |s| - 1 ==> !(s[i] == ' ' && s[i + 1] == ' ')
  }

  /** Only word characters, plain spaces and hyphens. */
  predicate TitleChars(s: string) {
    forall c :: c in s ==> IsWordChar(c) || c == ' ' || c == '-'
  }

  lemma SliceKeepsShape(s: string, lo: nat, hi: nat)
    requires lo <= hi <= |s|
    requires NoDoubleSpace(s) && TitleChars(s)
    ensures NoDoubleSpace(s[lo..hi]) && TitleChars(s[lo..hi])
  {
    var t := s[lo..hi];
    forall i | 0 <= i < |t| - 1
      ensures !(t[i] == ' ' && t[i + 1] == ' ')
    {
      assert t[i] == s[lo + i] && t[i + 1] == s[lo + i + 1];
    }
  }

  lemma SliceOfSlice(s: string, k: nat, n: nat)
    requires k + n <= |s|
    ensures s[k..][..n] == s[k..k + n]
  {
  }

  /** Lines 101-102 of the source: strip, collapse, trim. */
  function Normalize(base: string): (r: string)
    ensures TitleChars(r) && NoDoubleSpace(r)
    ensures r == [] || (r[0] != ' ' && r[|r| - 1] != ' ')
  {
    var collapsed := Collapse(StripDisallowed(base));
    var start := TrimStart(collapsed);
    var trimmed := TrimEnd(start);
    var k := |collapsed| - |start|;
    SliceOfSlice(collapsed, k, |trimmed|);
    SliceKeepsShape(collapsed, k, k + |trimmed|);
    trimmed
  }

  /** Lines 105-106 of the source: a name over 100 characters keeps its first
      97 and gains "...". */
  function Truncate(s: string): (r: string)
    ensures |r| <= MaxTitle
    ensures |s| <= MaxTitle ==> r == s
    ensures |s| > MaxTitle ==> |r| == MaxTitle && r[..97] == s[..97] && r[97..] == "..."
  {
    if |s| > MaxTitle then s[..97] + "..." else s
  }

  /** The cleaned name, before any uniqueness suffix. */
  function CleanName(base: string): string {
    Truncate(Normalize(base))
  }

  // ---- what cleaning keeps ------------------------------------------------

  /** The non-whitespace characters of `s`, in order. */
  function NonSpace(s: string): string {
    if s == [] then [] else (if IsSpace(s[0]) then [] else [s[0]]) + NonSpace(s[1..])
  }

  /** The word characters and hyphens of `s`, in order. */
  function WordsAndHyphens(s: string): string {
    if s == [] then []
    else (if IsWordChar(s[0]) || s[0] == '-' then [s[0]] else []) + WordsAndHyphens(s[1..])
  }

  /** A whitespace character at the end adds nothing to `NonSpace`. */
  lemma SpaceSnocNonSpace(s: string, c: char)
    requires IsSpace(c)
    ensures NonSpace(s + [c]) == NonSpace(s)
  {
    NonSpaceAppend(s, [c]);
    assert [c][1..] == [];
  }

  lemma {:induction false} NonSpaceAppend(a: string, b: string)
    ensures NonSpace(a + b) == NonSpace(a) + NonSpace(b)
  {
    if a == [] {
      assert a + b == b;
    } else {
      assert (a + b)[0] == a[0];
      assert (a + b)[1..] == a[1..] + b;
      NonSpaceAppend(a[1..], b);
    }
  }

  /** Cleaning loses no word character or hyphen and reorders nothing: apart
      from single spaces, the normalised name is exactly the base's word
      characters and hyphens. */
  lemma NormalizeKeepsContent(base: string)
    ensures NonSpace(Normalize(base)) == WordsAndHyphens(base)
  {
    var collapsed := Collapse(StripDisallowed(base));
    StripDisallowedKeepsWords(base);
    CollapseKeepsNonSpace(StripDisallowed(base));
    TrimStartDropsSpace(collapsed);
    TrimEndDropsSpace(TrimStart(collapsed));
  }

  /** Stripping works character by character: it distributes over
      concatenation. */
  lemma {:induction false} StripDisallowedAppend(a: string, b: string)
    ensures StripDisallowed(a + b) == StripDisallowed(a) + StripDisallowed(b)
  {
    if a == [] {
      assert a + b == b;
    } else {
      assert (a + b)[0] == a[0] && (a + b)[1..] == a[1..] + b;
      StripDisallowedAppend(a[1..], b);
    }
  }

  lemma JoinSpacedCons(c: char, w: string, ws: seq<string>)
    ensures JoinSpaced([[c] + w] + ws) == [c] + JoinSpaced([w] + ws)
  {
    assert ([[c] + w] + ws)[1..] == ws == ([w] + ws)[1..];
  }

  /** A string without leading, trailing or doubled spaces, whose only
      whitespace is the plain space, is the join of its own words. */
  lemma {:induction false} JoinOfOwnWords(r: string)
    requires TitleChars(r) && NoDoubleSpace(r)
    requires r == [] || (r[0] != ' ' && r[|r| - 1] != ' ')
    ensures JoinSpaced(Words(r)) == r
    decreases |r|
  {
    if r != [] {
      var c, t := r[0], r[1..];
      assert c in r;
      if t == [] {
        assert Words(r) == [[c]] + Words(t);
      } else if t[0] != ' ' {
        assert t[0] in r;
        SliceKeepsShape(r, 1, |r|);
        JoinOfOwnWords(t);
        var w := Words(t);
        assert Words(r) == [[c] + w[0]] + w[1..];
        JoinSpacedCons(c, w[0], w[1..]);
        assert [w[0]] + w[1..] == w;
      } else {
        var u := t[1..];
        assert r[1] == ' ';
        assert |r| > 2 && r[2] == u[0] && u[0] != ' ';
        assert u[0] in r;
        SliceKeepsShape(r, 2, |r|);
        JoinOfOwnWords(u);
        assert Words(t) == Words(u);
        assert Words(r) == [[c]] + Words(u);
        assert ([[c]] + Words(u))[1..] == Words(u);
      }
    }
  }

  /** The cleaning of lines 101-102 is `" ".join(stripped.split())`: the
      words of the stripped name joined by single spaces. */
  lemma NormalizeIsJoinOfWords(base: string)
    ensures Normalize(base) == JoinSpaced(Words(StripDisallowed(base)))
  {
    var collapsed := Collapse(StripDisallowed(base));
    var start := TrimStart(collapsed);
    CollapseKeepsWords(StripDisallowed(base));
    WordsTrimStart(collapsed);
    WordsTrimEnd(start);
    JoinOfOwnWords(Normalize(base));
  }

  // ---- candidates tried on a collision -----------------------------------

  /** The `k`-th name tried: the cleaned name itself, then
      `f"{original_name} {counter}"` for counter = 1, 2, ... */
  function Probe(original: string, k: nat): string {
    if k == 0 then original else original + " " + NatToString(k)
  }

  /** Different counters give different candidates. */
  lemma ProbeInjective(original: string, j: nat, k: nat)
    requires Probe(original, j) == Probe(original, k)
    ensures j == k
  {
    if j != 0 && k != 0 {
      var pre := original + " ";
      assert Probe(original, j)[|pre|..] == NatToString(j);
      assert Probe(original, k)[|pre|..] == NatToString(k);
      NatToStringReadsBack(j);
      NatToStringReadsBack(k);
    }
  }

  /** A finite set holds at most |taken| of the candidates, so the search for
      a free one ends. */
  lemma {:induction false} ProbesBound(original: string, taken: set<string>, n: nat)
    requires forall j :: 0 <= j < n ==> Probe(original, j) in taken
    ensures n <= |taken|
  {
    if n > 0 {
      var last := Probe(original, n - 1);
      forall j | 0 <= j < n - 1
        ensures Probe(original, j) in taken - {last}
      {
        if Probe(original, j) == last {
          ProbeInjective(original, j, n - 1);
        }
      }
      ProbesBound(original, taken - {last}, n - 1);
    }
  }

  /** The least counter, from `from` on, whose candidate is not taken. */
  function LeastFree(original: string, taken: set<string>, from: nat): (k: nat)
    requires forall j :: 0 <= j < from ==> Probe(original, j) in taken
    ensures from <= k
    ensures Probe(original, k) !in taken
    ensures forall j :: 0 <= j < k ==> Probe(original, j) in taken
    decreases |taken| - from
  {
    if Probe(original, from) !in taken then from
    else
      ProbesBound(original, taken, from + 1);
      LeastFree(original, taken, from + 1)
  }

  /** The name `_generate_sheet_name` settles on for a cleaned name and the
      titles already in use. */
  function UniqueName(clean: string, taken: set<string>): (r: string)
    ensures r !in taken
    ensures clean !in taken ==> r == clean
  {
    var k := LeastFree(clean, taken, 0);
    assert clean in taken ==> k != 0;
    Probe(clean, k)
  }

  /** On a collision the name is the cleaned name with the smallest free
      suffix " k", k >= 1. */
  lemma UniqueNameIsLeastSuffix(clean: string, taken: set<string>)
    requires clean in taken
    ensures exists k: nat :: (1 <= k && UniqueName(clean, taken) == clean + " " + NatToString(k) &&
      forall j :: 1 <= j < k ==> clean + " " + NatToString(j) in taken)
  {
    var k := LeastFree(clean, taken, 0);
    assert UniqueName(clean, taken) == Probe(clean, k);
    assert k != 0;
    forall j | 1 <= j < k
      ensures clean + " " + NatToString(j) in taken
    {
      assert Probe(clean, j) in taken;
    }
  }
}
