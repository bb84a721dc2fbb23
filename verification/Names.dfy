/** Repository names. The one-pass scanner is proved to accept exactly the
    grammar of the OCI Distribution Specification, section "Pulling manifests":
    slash-separated words of [a-z0-9]+((\.|_|__|-+)[a-z0-9]+)*. */
module Names {
  import opened Basics

  predicate IsLowerAlnum(c: char) { 'a' <= c <= 'z' || '0' <= c <= '9' }

  // ---------------------------------------------------------------- the grammar

  /** [a-z0-9]+ */
  predicate Word(s: string) {
    s != "" && forall i :: 0 <= i < |s| ==> 'a' <= s[i] <= 'z' || '0' <= s[i] <= '9'
  }

  /** \.|_|__|-+ */
  predicate Separator(s: string) {
    s == "." || s == "_" || s == "__" || (s != "" && forall i :: 0 <= i < |s| ==> s[i] == '-')
  }

  /** s starts with the word s[..i] and the separator s[i..j], and goes on. */
  predicate Cuts(s: string, i: int, j: int) {
    0 < i < j < |s| && Word(s[..i]) && Separator(s[i..j])
  }

  /** [a-z0-9]+((\.|_|__|-+)[a-z0-9]+)*, for some way to cut s into pieces. */
  ghost predicate Component(s: string)
    decreases |s|
  {
    Word(s) ||
    exists i, j :: Cuts(s, i, j) && Component(s[j..])
  }

  /** Component ("/" Component)* */
  ghost predicate Name(s: string)
    decreases |s|
  {
    Component(s) ||
    exists i :: 0 <= i < |s| && s[i] == '/' && Component(s[..i]) && Name(s[i + 1..])
  }

  // ---------------------------------------------------------------- what the scanner computes

  /** End of the longest run of alphanumerics from i on. */
  function RunEnd(s: string, i: nat): (e: nat)
    requires i <= |s|
    ensures i <= e <= |s|
    ensures forall k :: i <= k < e ==> IsLowerAlnum(s[k])
    ensures e < |s| ==> !IsLowerAlnum(s[e])
    decreases |s| - i
  {
    if i < |s| && IsLowerAlnum(s[i]) then RunEnd(s, i + 1) else i
  }

  /** End of the longest run of hyphens from i on. */
  function HyphenEnd(s: string, i: nat): (e: nat)
    requires i <= |s|
    ensures i <= e <= |s|
    ensures forall k :: i <= k < e ==> s[k] == '-'
    ensures e < |s| ==> s[e] != '-'
    decreases |s| - i
  {
    if i < |s| && s[i] == '-' then HyphenEnd(s, i + 1) else i
  }

  /** End of the separator the scan takes greedily at i; i itself when there is none. */
  function SeparatorEnd(s: string, i: nat): (e: nat)
    requires i < |s|
    ensures i <= e <= |s|
  {
    if s[i] == '.' then i + 1
    else if s[i] == '_' then (if i + 1 < |s| && s[i + 1] == '_' then i + 2 else i + 1)
    else HyphenEnd(s, i)
  }

  /** Does the scan that starts a word at i accept the rest of s? */
  predicate Scan(s: string, i: nat)
    requires i <= |s|
    decreases |s| - i
  {
    var w := RunEnd(s, i);
    w > i && (w == |s| || (SeparatorEnd(s, w) > w && Scan(s, SeparatorEnd(s, w))))
  }

  // ---------------------------------------------------------------- greedy scan = grammar

  lemma WordIsRun(s: string, i: nat, e: nat)
    requires i < e <= |s| && Word(s[i..e]) && (e < |s| ==> !IsLowerAlnum(s[e]))
    ensures RunEnd(s, i) == e
  {
    assert forall k :: i <= k < e ==> s[k] == s[i..e][k - i];
  }

  /** Any separator followed by a word is the greedy one. */
  lemma SeparatorIsGreedy(s: string, i: nat, e: nat)
    requires i < e < |s| && Separator(s[i..e]) && IsLowerAlnum(s[e])
    ensures SeparatorEnd(s, i) == e
  {
    assert forall k :: i <= k < e ==> s[k] == s[i..e][k - i];
  }

  lemma GreedyIsSeparator(s: string, i: nat)
    requires i < |s| && SeparatorEnd(s, i) > i
    ensures Separator(s[i..SeparatorEnd(s, i)])
  {
    var sep := s[i..SeparatorEnd(s, i)];
    if s[i] == '.' {
      assert sep == ".";
    } else if s[i] == '_' {
      assert sep == "_" || sep == "__";
    }
  }

  lemma ComponentStartsWord(s: string)
    requires Component(s)
    ensures s != "" && IsLowerAlnum(s[0])
  {
    if !Word(s) {
      var i, j :| Cuts(s, i, j) && Component(s[j..]);
      assert s[0] == s[..i][0];
    }
  }

  lemma SliceOfSlice(s: string, at: nat, i: nat, j: nat)
    requires at + i <= at + j <= |s|
    ensures s[at..][i..j] == s[at + i..at + j] && s[at..][j..] == s[at + j..]
  {}

  /** If the rest from j on is scanned, so is the word and separator in front of it. */
  lemma ScanExtends(s: string, at: nat, i: nat, j: nat)
    requires at < i < j < |s| && Word(s[at..i]) && Separator(s[i..j]) && IsLowerAlnum(s[j]) && Scan(s, j)
    ensures Scan(s, at)
  {
    assert !IsLowerAlnum(s[i]) by { assert s[i..j][0] == s[i]; }
    WordIsRun(s, at, i);
    SeparatorIsGreedy(s, i, j);
  }

  lemma LastWordIsScanned(s: string, at: nat)
    requires at <= |s| && Word(s[at..|s|])
    ensures Scan(s, at)
  {
    WordIsRun(s, at, |s|);
  }

  lemma {:induction false} ScanAcceptsComponents(s: string, at: nat)
    requires at <= |s| && Component(s[at..])
    ensures Scan(s, at)
    decreases |s| - at
  {
    hide Word, Separator, Scan;
    var t := s[at..];
    if Word(t) {
      assert s[at..|s|] == t;
      LastWordIsScanned(s, at);
    } else {
      var i, j :| Cuts(t, i, j) && Component(t[j..]);
      SliceOfSlice(s, at, 0, i);
      SliceOfSlice(s, at, i, j);
      ComponentStartsWord(s[at + j..]);
      ScanAcceptsComponents(s, at + j);
      ScanExtends(s, at, at + i, at + j);
    }
  }

  lemma {:induction false} ScannedIsComponent(s: string, at: nat)
    requires at <= |s| && Scan(s, at)
    ensures Component(s[at..])
    decreases |s| - at
  {
    var t := s[at..];
    var w := RunEnd(s, at);
    SliceOfSlice(s, at, 0, w - at);
    assert Word(s[at..w]);
    if w < |s| {
      var e := SeparatorEnd(s, w);
      GreedyIsSeparator(s, w);
      ScannedIsComponent(s, e);
      ComponentStartsWord(s[e..]);
      SliceOfSlice(s, at, w - at, e - at);
      assert Cuts(t, w - at, e - at);
    } else {
      assert s[at..w] == t;
    }
  }

  /** The greedy scan never rejects a word that another segmentation accepts. */
  lemma ScanIsGrammar(s: string)
    ensures Scan(s, 0) <==> Component(s)
  {
    assert s[0..] == s;
    if Component(s) { ScanAcceptsComponents(s, 0); }
    if Scan(s, 0) { ScannedIsComponent(s, 0); }
  }

  // ---------------------------------------------------------------- the code

  method SkipWord(component: string, start: nat) returns (i: nat)
    requires start <= |component|
    ensures i == RunEnd(component, start)
  {
    i := start;
    while i < |component| && IsLowerAlnum(component[i])
      invariant start <= i <= |component|
      invariant RunEnd(component, start) == RunEnd(component, i)
    {
      i := i + 1;
    }
  }

  method SkipSeparator(component: string, start: nat) returns (i: nat)
    requires start < |component|
    ensures i == SeparatorEnd(component, start)
  {
    i := start;
    if component[i] == '.' {
      i := i + 1;
    } else if component[i] == '_' {
      i := i + 1;
      if i < |component| && component[i] == '_' {
        i := i + 1;
      }
    } else {
      while i < |component| && component[i] == '-'
        invariant start <= i <= |component|
        invariant HyphenEnd(component, start) == HyphenEnd(component, i)
      {
        i := i + 1;
      }
    }
  }

  /** The scan of one component. Its two inner loops are SkipWord and SkipSeparator. */
  method ValidNameComponent(component: string) returns (ok: bool)
    ensures ok <==> Component(component)
  {
    var i := 0;
    ghost var grammatical := Component(component);
    ScanIsGrammar(component);
    while true
      invariant i <= |component|
      invariant grammatical <==> Scan(component, i)
      decreases |component| - i
    {
      var word := SkipWord(component, i);
      if word == i {
        return false;
      }
      if word == |component| {
        return true;
      }
      i := SkipSeparator(component, word);
      if i == word {
        return false;
      }
    }
  }

  /** The components between the slashes of a name. */
  function Split(s: string): (parts: seq<string>)
    ensures parts != []
  {
    if s == "" then [""]
    else
      var rest := Split(s[1..]);
      if s[0] == '/' then [""] + rest else [[s[0]] + rest[0]] + rest[1..]
  }

  lemma {:induction false} SplitAtSlash(s: string, i: nat)
    requires i < |s| && s[i] == '/' && '/' !in s[..i]
    ensures Split(s) == [s[..i]] + Split(s[i + 1..])
  {
    if i > 0 {
      assert s[1..][..i - 1] == s[1..i];
      assert forall c :: c in s[1..i] ==> c in s[..i];
      SplitAtSlash(s[1..], i - 1);
      assert s[1..][i..] == s[i + 1..];
      assert s[..i] == [s[0]] + s[1..i];
    } else {
      assert s[..0] == "";
    }
  }

  lemma {:induction false} SplitWithoutSlash(s: string)
    requires '/' !in s
    ensures Split(s) == [s]
  {
    if s != "" {
      SplitWithoutSlash(s[1..]);
      assert s == [s[0]] + s[1..];
    }
  }

  lemma {:induction false} ComponentHasNoSlash(s: string)
    requires Component(s)
    ensures '/' !in s
    decreases |s|
  {
    if !Word(s) {
      var i, j :| Cuts(s, i, j) && Component(s[j..]);
      ComponentHasNoSlash(s[j..]);
      assert s == s[..i] + s[i..j] + s[j..];
    }
  }

  ghost predicate AllComponents(parts: seq<string>) {
    forall k :: 0 <= k < |parts| ==> Component(parts[k])
  }

  lemma {:induction false} NameSplitsIntoComponents(s: string)
    requires Name(s)
    ensures AllComponents(Split(s))
    decreases |s|
  {
    if Component(s) {
      ComponentHasNoSlash(s);
      SplitWithoutSlash(s);
    } else {
      var i :| 0 <= i < |s| && s[i] == '/' && Component(s[..i]) && Name(s[i + 1..]);
      ComponentHasNoSlash(s[..i]);
      SplitAtSlash(s, i);
      NameSplitsIntoComponents(s[i + 1..]);
    }
  }

  lemma {:induction false} ComponentsMakeName(s: string)
    requires AllComponents(Split(s))
    ensures Name(s)
    decreases |s|
  {
    if '/' in s {
      var i := FirstSlash(s);
      SplitAtSlash(s, i);
      assert Split(s)[0] == s[..i];
      assert Split(s)[1..] == Split(s[i + 1..]);
      ComponentsMakeName(s[i + 1..]);
    } else {
      SplitWithoutSlash(s);
      assert Component(Split(s)[0]);
    }
  }

  lemma {:induction false} FirstSlash(s: string) returns (i: nat)
    requires '/' in s
    ensures i < |s| && s[i] == '/' && '/' !in s[..i]
  {
    if s[0] == '/' {
      i := 0;
    } else {
      assert s == [s[0]] + s[1..];
      var k := FirstSlash(s[1..]);
      i := k + 1;
      assert s[..i] == [s[0]] + s[1..][..k];
    }
  }

  method ValidName(name: string) returns (ok: bool)
    ensures ok <==> Name(name)
  {
    if name == "" {
      assert !Component("");
      return false;
    }
    var parts := Split(name);
    for k := 0 to |parts|
      invariant forall j :: 0 <= j < k ==> Component(parts[j])
    {
      var good := ValidNameComponent(parts[k]);
      if !good {
        if Name(name) { NameSplitsIntoComponents(name); }
        return false;
      }
    }
    ComponentsMakeName(name);
    return true;
  }
}
