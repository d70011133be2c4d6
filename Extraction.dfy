/** `_extract_file_name`: the first match of the case-insensitive pattern
    `([\w.-]+\.(zip|rar|tar\.gz))` in a free-form goal, on ASCII text.

    The meaning is stated declaratively by `Candidate` (a span of
    `[\w.-]` characters that ends in one of the archive extensions, with at
    least one character before the extension) and `Selected` (the leftmost
    start, then the farthest end, as a leftmost search with a greedy `+`
    gives). The functions below compute it the way the regex engine does:
    try each start position in turn; at a start, let `+` take the whole run
    of name characters and back off until an extension begins. */
module Extraction {
  import opened Wrappers
  import opened Text

  /** `[\w.-]` restricted to ASCII. */
  predicate IsNameChar(c: char) {
    'a' <= c <= 'z' || 'A' <= c <= 'Z' || '0' <= c <= '9' || c == '_' || c == '.' || c == '-'
  }

  predicate AllNameChars(s: string, lo: int, hi: int)
    requires 0 <= lo <= hi <= |s|
  {
    forall i :: lo <= i < hi ==> IsNameChar(s[i])
  }

  /** `s[i]` is `c` once lower-cased: how IGNORECASE compares a pattern
      letter with the text. */
  predicate FoldedAt(s: string, i: int, c: char) {
    0 <= i < |s| && LowerChar(s[i]) == c
  }

  /** The three alternatives of the extension group begin at `k`. */
  predicate ZipAt(s: string, k: int) {
    FoldedAt(s, k, '.') && FoldedAt(s, k + 1, 'z') && FoldedAt(s, k + 2, 'i') && FoldedAt(s, k + 3, 'p')
  }

  predicate RarAt(s: string, k: int) {
    FoldedAt(s, k, '.') && FoldedAt(s, k + 1, 'r') && FoldedAt(s, k + 2, 'a') && FoldedAt(s, k + 3, 'r')
  }

  predicate TarGzAt(s: string, k: int) {
    && FoldedAt(s, k, '.') && FoldedAt(s, k + 1, 't') && FoldedAt(s, k + 2, 'a') && FoldedAt(s, k + 3, 'r')
    && FoldedAt(s, k + 4, '.') && FoldedAt(s, k + 5, 'g') && FoldedAt(s, k + 6, 'z')
  }

  /** `s[p..e]` ends in `.zip`, `.rar` or `.tar.gz`, in any case, with at
      least one character in front of the extension. */
  predicate EndsWithExtension(s: string, p: int, e: int) {
    || (p + 4 < e && ZipAt(s, e - 4))
    || (p + 4 < e && RarAt(s, e - 4))
    || (p + 7 < e && TarGzAt(s, e - 7))
  }

  /** `s[p..e]` is a string the pattern matches. */
  predicate Candidate(s: string, p: int, e: int) {
    0 <= p < e <= |s| && AllNameChars(s, p, e) && EndsWithExtension(s, p, e)
  }

  /** The candidate `re.search` reports: leftmost start, then farthest end. */
  ghost predicate Selected(s: string, p: int, e: int) {
    && Candidate(s, p, e)
    && (forall p', e' :: Candidate(s, p', e') ==> p <= p')
    && (forall e' :: Candidate(s, p, e') ==> e' <= e)
  }

  /** Length of the extension that begins at `k`, trying the alternatives in
      the pattern's order; 0 when none begins there. */
  function ExtensionAt(s: string, k: int): nat {
    if ZipAt(s, k) then 4 else if RarAt(s, k) then 4 else if TarGzAt(s, k) then 7 else 0
  }

  /** End of the maximal run of name characters that starts at `p`. */
  function RunEnd(s: string, p: nat): (r: nat)
    requires p <= |s|
    ensures p <= r <= |s|
    ensures AllNameChars(s, p, r)
    ensures r < |s| ==> !IsNameChar(s[r])
    decreases |s| - p
  {
    if p == |s| || !IsNameChar(s[p]) then p else RunEnd(s, p + 1)
  }

  /** Back-off of the greedy `+`: the largest `k` with `p < k < hi` at which
      an extension begins. */
  function LastExtensionBefore(s: string, p: nat, hi: nat): (k: Option<nat>)
    ensures k.Some? ==> p < k.value < hi && ExtensionAt(s, k.value) > 0
    ensures k.Some? ==> forall j :: k.value < j < hi ==> ExtensionAt(s, j) == 0
    ensures k.None? ==> forall j :: p < j < hi ==> ExtensionAt(s, j) == 0
    decreases hi
  {
    if hi <= p + 1 then None
    else if ExtensionAt(s, hi - 1) > 0 then Some(hi - 1)
    else LastExtensionBefore(s, p, hi - 1)
  }

  /** A character whose lower-case form is a name character is one. */
  lemma LowerKeepsNameChar(c: char)
    requires IsNameChar(LowerChar(c))
    ensures IsNameChar(c)
  {
  }

  /** An extension that begins at `k` lies inside `s` and is made of name
      characters. */
  lemma ExtensionAtFacts(s: string, k: int)
    requires 0 <= k && ExtensionAt(s, k) > 0
    ensures k + ExtensionAt(s, k) <= |s|
    ensures AllNameChars(s, k, k + ExtensionAt(s, k))
  {
    forall i | k <= i < k + ExtensionAt(s, k)
      ensures IsNameChar(s[i])
    {
      LowerKeepsNameChar(s[i]);
    }
  }

  /** The extension an ending names is the one `ExtensionAt` finds where it
      begins: the three alternatives cannot be confused. */
  lemma ExtensionAtOfEnding(s: string, p: int, e: int)
    requires EndsWithExtension(s, p, e)
    ensures (ZipAt(s, e - 4) || RarAt(s, e - 4)) ==> ExtensionAt(s, e - 4) == 4
    ensures TarGzAt(s, e - 7) ==> ExtensionAt(s, e - 7) == 7
  {
  }

  /** Two extensions cannot overlap: one that begins inside a `.tar.gz`
      would have to begin at its `t` or its `a`, and none begins with a
      letter. */
  lemma NoOverlap(s: string, k: int, j: int)
    requires 0 <= k < j && ExtensionAt(s, k) > 0 && ExtensionAt(s, j) > 0
    ensures k + ExtensionAt(s, k) <= j + ExtensionAt(s, j)
  {
  }

  /** The end of the match a search anchored at `p` finds, if any. */
  function MatchAt(s: string, p: nat): (e: Option<nat>)
    requires p <= |s|
    ensures e.Some? ==> Candidate(s, p, e.value)
    ensures e.Some? ==> forall e' :: Candidate(s, p, e') ==> e' <= e.value
    ensures e.None? ==> forall e' :: !Candidate(s, p, e')
  {
    var r := RunEnd(s, p);
    match LastExtensionBefore(s, p, r)
    case None =>
      NoCandidateWithoutExtension(s, p);
      None
    case Some(k) =>
      MatchAtSound(s, p, k);
      MatchAtMaximal(s, p, k);
      Some(k + ExtensionAt(s, k))
  }

  /** Every candidate starting at `p` ends an extension that begins inside
      the run of name characters at `p`. */
  lemma CandidateExtension(s: string, p: nat, e: int)
    requires p <= |s| && Candidate(s, p, e)
    ensures || (p < e - 4 < RunEnd(s, p) && ExtensionAt(s, e - 4) == 4)
            || (p < e - 7 < RunEnd(s, p) && ExtensionAt(s, e - 7) == 7)
  {
    ExtensionAtOfEnding(s, p, e);
  }

  lemma NoCandidateWithoutExtension(s: string, p: nat)
    requires p <= |s|
    requires LastExtensionBefore(s, p, RunEnd(s, p)).None?
    ensures forall e' :: !Candidate(s, p, e')
  {
    forall e' | Candidate(s, p, e')
      ensures false
    {
      CandidateExtension(s, p, e');
    }
  }

  lemma MatchAtSound(s: string, p: nat, k: nat)
    requires p <= |s|
    requires LastExtensionBefore(s, p, RunEnd(s, p)) == Some(k)
    ensures Candidate(s, p, k + ExtensionAt(s, k))
  {
    var r := RunEnd(s, p);
    var e := k + ExtensionAt(s, k);
    ExtensionAtFacts(s, k);
    assert AllNameChars(s, p, e) by {
      forall i | p <= i < e
        ensures IsNameChar(s[i])
      {
        if i >= k {
          assert AllNameChars(s, k, e);
        }
      }
    }
  }

  lemma MatchAtMaximal(s: string, p: nat, k: nat)
    requires p <= |s|
    requires LastExtensionBefore(s, p, RunEnd(s, p)) == Some(k)
    ensures forall e' :: Candidate(s, p, e') ==> e' <= k + ExtensionAt(s, k)
  {
    forall e' | Candidate(s, p, e')
      ensures e' <= k + ExtensionAt(s, k)
    {
      CandidateEndBound(s, p, k, e');
    }
  }

  /** A candidate at `p` ends its extension no later than the last
      extension of the run does. */
  lemma CandidateEndBound(s: string, p: nat, k: nat, e: int)
    requires p <= |s| && Candidate(s, p, e)
    requires LastExtensionBefore(s, p, RunEnd(s, p)) == Some(k)
    ensures e <= k + ExtensionAt(s, k)
  {
    CandidateExtension(s, p, e);
    if p < e - 4 < RunEnd(s, p) && ExtensionAt(s, e - 4) == 4 {
      if e - 4 < k {
        NoOverlap(s, e - 4, k);
      }
    } else {
      if e - 7 < k {
        NoOverlap(s, e - 7, k);
      }
    }
  }

  /** `re.search` from position `from` on: the first start at which the
      pattern matches, with the end of that match. */
  function SearchFrom(s: string, from: nat): (m: Option<(nat, nat)>)
    requires from <= |s|
    ensures m.Some? ==> from <= m.value.0 && Candidate(s, m.value.0, m.value.1)
    ensures m.Some? ==> forall p, e :: from <= p < m.value.0 ==> !Candidate(s, p, e)
    ensures m.Some? ==> forall e :: Candidate(s, m.value.0, e) ==> e <= m.value.1
    ensures m.None? ==> forall p, e :: from <= p ==> !Candidate(s, p, e)
    decreases |s| - from
  {
    if from == |s| then None
    else match MatchAt(s, from)
      case Some(e) => Some((from, e))
      case None => SearchFrom(s, from + 1)
  }

  /** `_extract_file_name`: the matched text, or `None` when the goal holds
      no match. */
  function ExtractFileName(goal: string): (r: Option<string>)
    ensures r.None? <==> forall p, e :: !Candidate(goal, p, e)
    ensures r.Some? ==> exists p, e :: Selected(goal, p, e) && r.value == goal[p..e]
  {
    match SearchFrom(goal, 0)
    case None => None
    case Some(m) =>
      assert Selected(goal, m.0, m.1);
      Some(goal[m.0..m.1])
  }

  /** At most one span is selected, so the extracted name is determined. */
  lemma SelectedUnique(s: string, p: int, e: int, p': int, e': int)
    requires Selected(s, p, e) && Selected(s, p', e')
    ensures p == p' && e == e'
  {
  }

  /** The text of a candidate span is itself a candidate from its first to
      its last character. */
  lemma CandidateText(s: string, p: int, e: int)
    requires Candidate(s, p, e)
    ensures Candidate(s[p..e], 0, e - p)
  {
    var name := s[p..e];
    var n := e - p;
    assert forall i :: 0 <= i < n ==> name[i] == s[p + i];
    if ZipAt(s, e - 4) && p + 4 < e {
      assert ZipAt(name, n - 4);
    } else if RarAt(s, e - 4) && p + 4 < e {
      assert RarAt(name, n - 4);
    } else {
      assert TarGzAt(name, n - 7);
    }
  }

  /** An extracted name is a run of name characters that ends in an archive
      extension, in any case, with something in front of it; in particular
      it is never empty, so it is always truthy. */
  lemma ExtractedNameShape(goal: string)
    requires ExtractFileName(goal).Some?
    ensures var name := ExtractFileName(goal).value;
      && |name| > 4
      && AllNameChars(name, 0, |name|)
      && EndsWithExtension(name, 0, |name|)
  {
    var m := SearchFrom(goal, 0).value;
    CandidateText(goal, m.0, m.1);
  }

  /** No word boundary is required after the extension: the greedy `+`
      backs off to the last extension that begins in the run, so `.zipper`
      yields a name ending in `.zip`. */
  lemma NoWordBoundary()
    ensures ExtractFileName("foo.zipper") == Some("foo.zip")
  {
    var s := "foo.zipper";
    assert ZipAt(s, 3);
    assert Candidate(s, 0, 7);
    forall e' | Candidate(s, 0, e')
      ensures e' <= 7
    {
    }
    assert Selected(s, 0, 7);
    assert ExtractFileName(s).Some?;
    var p, e :| Selected(s, p, e) && ExtractFileName(s).value == s[p..e];
    SelectedUnique(s, 0, 7, p, e);
    assert s[0..7] == "foo.zip";
  }
}
