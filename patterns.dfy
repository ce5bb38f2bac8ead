/** The four regular-expression literals the sources apply with
    `String.prototype.match` (no `g` flag), modelled as "leftmost match, then
    capture group 1".

    For each pattern the model has two descriptions:
    - a computed one, CaptureAt, that follows the backtracking engine (greedy
      quantifiers give up characters only when the rest of the pattern
      fails), and
    - a declarative one, Matches, that says how the subject splits into the
      pieces of the pattern.
    CaptureAtMatches proves them equal; FirstMatchIsLeftmost then says that
    FirstMatch is the capture of the leftmost start position. */
module Patterns {
  import opened Wrappers
  import opened Text

  datatype Pattern =
    | OgImage       // /<meta\s+property="og:image"\s+content="([^"]+)"/
    | TwitterImage  // /<meta\s+name="twitter:image"\s+content="([^"]+)"/
    | FirstImg      // /<img[^>]+src="([^"]+)"/
    | SrcAttr       // /src="([^"]+)"/

  const MetaOpen := "<meta"
  const OgProperty := "property=\"og:image\""
  const TwitterName := "name=\"twitter:image\""
  const ContentOpen := "content=\""
  const ImgOpen := "<img"
  const SrcOpen := "src=\""

  /** The literal `lit` occurs in `s` at position `i`. */
  predicate At(s: string, i: nat, lit: string)
  {
    i + |lit| <= |s| && s[i..i + |lit|] == lit
  }

  predicate AllSpace(s: string, lo: nat, hi: nat)
    requires lo <= hi <= |s|
  {
    forall k :: lo <= k < hi ==> IsJsWhitespace(s[k])
  }

  predicate NoChar(s: string, lo: nat, hi: nat, ch: char)
    requires lo <= hi <= |s|
  {
    forall k :: lo <= k < hi ==> s[k] != ch
  }

  /** End of the run of `\s` characters that starts at `i` (what a greedy
      `\s+` or `\s*` consumes). */
  function SkipSpace(s: string, i: nat): (k: nat)
    requires i <= |s|
    ensures i <= k <= |s| && AllSpace(s, i, k)
    ensures k < |s| ==> !IsJsWhitespace(s[k])
    decreases |s| - i
  {
    if i < |s| && IsJsWhitespace(s[i]) then SkipSpace(s, i + 1) else i
  }

  /** Position of the first `ch` at or after `i`, or `|s|` when there is
      none (what a greedy `[^ch]*` consumes). */
  function Find(s: string, i: nat, ch: char): (k: nat)
    requires i <= |s|
    ensures i <= k <= |s| && NoChar(s, i, k, ch)
    ensures k < |s| ==> s[k] == ch
    decreases |s| - i
  {
    if i < |s| && s[i] != ch then Find(s, i + 1, ch) else i
  }

  /** `([^"]+)"` at position `i`: the greedy group takes every character up
      to the next double quote; it needs at least one, and the quote must
      be there. */
  function QuotedAt(s: string, i: nat): (c: Option<string>)
    requires i <= |s|
    ensures c.Some? ==> |c.value| >= 1 && '"' !in c.value
    ensures c.Some? ==> i + |c.value| < |s| && s[i + |c.value|] == '"' && c.value == s[i..i + |c.value|]
    ensures c.None? ==> (i < |s| && s[i] == '"') || '"' !in s[i..]
  {
    var e := Find(s, i, '"');
    if i < e < |s| then Some(s[i..e]) else None
  }

  /** `<meta\s+ATTR\s+content="([^"]+)"` at position `i`. Since ATTR and
      `content` start with a letter, each `\s+` must take the whole run of
      white space. */
  function MetaAt(s: string, i: nat, attr: string): Option<string>
    requires i <= |s|
  {
    if !At(s, i, MetaOpen) then None
    else
      var k := SkipSpace(s, i + |MetaOpen|);
      if k == i + |MetaOpen| || !At(s, k, attr) then None
      else
        var m := SkipSpace(s, k + |attr|);
        if m == k + |attr| || !At(s, m, ContentOpen) then None
        else QuotedAt(s, m + |ContentOpen|)
  }

  /** `src="` at `j`, followed by a capturable quoted value. */
  predicate SrcOk(s: string, j: nat)
  {
    At(s, j, SrcOpen) && QuotedAt(s, j + |SrcOpen|).Some?
  }

  /** The largest `j` in `[lo, hi)` with SrcOk(s, j), searched from the top
      down as the backtracking of a greedy quantifier does. */
  function LastSrc(s: string, lo: nat, hi: nat): (r: Option<nat>)
    requires hi <= |s|
    ensures r.Some? ==> lo <= r.value < hi && SrcOk(s, r.value)
    ensures r.Some? ==> forall j :: r.value < j < hi ==> !SrcOk(s, j)
    ensures r.None? ==> forall j :: lo <= j < hi ==> !SrcOk(s, j)
    decreases hi
  {
    if hi <= lo then None
    else if SrcOk(s, hi - 1) then Some(hi - 1)
    else LastSrc(s, lo, hi - 1)
  }

  /** `<img[^>]+src="([^"]+)"` at position `i`. The greedy `[^>]+` first runs
      to the first `>` and then backs off, so the capture is that of the LAST
      `src="` (at least one character after `<img`) that comes before that
      `>`: in `<img data-src="a" src="b">` it is `b`. */
  function ImgAt(s: string, i: nat): Option<string>
    requires i <= |s|
  {
    if !At(s, i, ImgOpen) then None
    else
      var t := Find(s, i + |ImgOpen|, '>');
      match LastSrc(s, i + |ImgOpen| + 1, t)
      case Some(j) => QuotedAt(s, j + |SrcOpen|)
      case None => None
  }

  /** Capture group 1 of pattern `p` when the match starts at `i`. The
      capture is never empty and never holds a double quote. */
  function CaptureAt(p: Pattern, s: string, i: nat): (c: Option<string>)
    requires i <= |s|
    ensures c.Some? ==> |c.value| >= 1 && '"' !in c.value
  {
    match p
    case OgImage => MetaAt(s, i, OgProperty)
    case TwitterImage => MetaAt(s, i, TwitterName)
    case FirstImg => ImgAt(s, i)
    case SrcAttr => if At(s, i, SrcOpen) then QuotedAt(s, i + |SrcOpen|) else None
  }

  /** The leftmost start position at or after `i` where `p` matches. */
  function LeftmostFrom(p: Pattern, s: string, i: nat): (r: Option<nat>)
    requires i <= |s|
    ensures r.Some? ==> i <= r.value < |s| && CaptureAt(p, s, r.value).Some?
    ensures r.Some? ==> forall k :: i <= k < r.value ==> CaptureAt(p, s, k).None?
    ensures r.None? ==> forall k :: i <= k < |s| ==> CaptureAt(p, s, k).None?
    decreases |s| - i
  {
    if i == |s| then None
    else if CaptureAt(p, s, i).Some? then Some(i)
    else LeftmostFrom(p, s, i + 1)
  }

  /** `s.match(p)?.[1]`: group 1 of the leftmost match, or None for `null`. */
  function FirstMatch(p: Pattern, s: string): (c: Option<string>)
    ensures c.Some? ==> |c.value| >= 1 && '"' !in c.value
  {
    match LeftmostFrom(p, s, 0)
    case Some(i) => CaptureAt(p, s, i)
    case None => None
  }

  // ---------------------------------------------------------------------
  // Declarative description of a match: how the subject splits.

  /** `s[i..]` begins with `<meta`, a non-empty run of white space, `attr`,
      another non-empty run of white space, `content="`, the capture
      `s[m + 9..e]` (non-empty, no quote) and a closing `"` at `e`. */
  ghost predicate MetaSplit(s: string, i: nat, attr: string, k: nat, m: nat, e: nat)
  {
    && At(s, i, MetaOpen)
    && i + |MetaOpen| < k <= |s| && AllSpace(s, i + |MetaOpen|, k)
    && At(s, k, attr)
    && k + |attr| < m <= |s| && AllSpace(s, k + |attr|, m)
    && At(s, m, ContentOpen)
    && m + |ContentOpen| < e < |s| && NoChar(s, m + |ContentOpen|, e, '"') && s[e] == '"'
  }

  /** `s[i..]` begins with `<img`, at least one character other than `>`
      (up to `j`), `src="`, the capture `s[j + 5..e]` and a closing `"`. */
  ghost predicate ImgSplit(s: string, i: nat, j: nat, e: nat)
  {
    && At(s, i, ImgOpen)
    && i + |ImgOpen| < j <= |s| && NoChar(s, i + |ImgOpen|, j, '>')
    && At(s, j, SrcOpen)
    && j + |SrcOpen| < e < |s| && NoChar(s, j + |SrcOpen|, e, '"') && s[e] == '"'
  }

  ghost predicate SrcSplit(s: string, i: nat, e: nat)
  {
    && At(s, i, SrcOpen)
    && i + |SrcOpen| < e < |s| && NoChar(s, i + |SrcOpen|, e, '"') && s[e] == '"'
  }

  /** Pattern `p` matches at `i` with group 1 equal to `c`. For the `<img`
      pattern several splits may exist; the engine's greedy `[^>]+` picks
      the one with the longest run before `src="`. */
  ghost predicate Matches(p: Pattern, s: string, i: nat, c: string)
  {
    match p
    case OgImage =>
      exists k: nat, m: nat, e: nat :: MetaSplit(s, i, OgProperty, k, m, e) && c == s[m + |ContentOpen|..e]
    case TwitterImage =>
      exists k: nat, m: nat, e: nat :: MetaSplit(s, i, TwitterName, k, m, e) && c == s[m + |ContentOpen|..e]
    case FirstImg =>
      exists j: nat, e: nat :: ImgSplit(s, i, j, e) && c == s[j + |SrcOpen|..e]
        && forall j': nat, e': nat :: ImgSplit(s, i, j', e') ==> j' <= j
    case SrcAttr =>
      exists e: nat :: SrcSplit(s, i, e) && c == s[i + |SrcOpen|..e]
  }

  // ---------------------------------------------------------------------
  // The computed captures agree with the declarative ones.

  lemma {:induction false} SkipSpaceExact(s: string, i: nat, k: nat)
    requires i <= k <= |s| && AllSpace(s, i, k)
    requires k < |s| ==> !IsJsWhitespace(s[k])
    ensures SkipSpace(s, i) == k
    decreases k - i
  {
    if i < k {
      SkipSpaceExact(s, i + 1, k);
    }
  }

  lemma {:induction false} FindExact(s: string, i: nat, ch: char, k: nat)
    requires i <= k <= |s| && NoChar(s, i, k, ch)
    requires k < |s| ==> s[k] == ch
    ensures Find(s, i, ch) == k
    decreases k - i
  {
    if i < k {
      FindExact(s, i + 1, ch, k);
    }
  }

  lemma AtFirst(s: string, i: nat, lit: string)
    requires |lit| > 0 && At(s, i, lit)
    ensures s[i] == lit[0]
  {
    assert s[i..i + |lit|][0] == s[i];
  }

  lemma MetaAtSound(s: string, i: nat, attr: string, c: string)
    requires i <= |s| && MetaAt(s, i, attr) == Some(c)
    ensures exists k: nat, m: nat, e: nat :: MetaSplit(s, i, attr, k, m, e) && c == s[m + |ContentOpen|..e]
  {
    var k := SkipSpace(s, i + |MetaOpen|);
    var m := SkipSpace(s, k + |attr|);
    var e := Find(s, m + |ContentOpen|, '"');
    assert MetaSplit(s, i, attr, k, m, e);
  }

  lemma NotSpace(c: char)
    requires 'a' <= c <= 'z'
    ensures !IsJsWhitespace(c)
  {
  }

  lemma MetaAtUnfold(s: string, i: nat, attr: string, k: nat, m: nat)
    requires i <= |s| && At(s, i, MetaOpen)
    requires k == SkipSpace(s, i + |MetaOpen|) && k != i + |MetaOpen| && At(s, k, attr)
    requires m == SkipSpace(s, k + |attr|) && m != k + |attr| && At(s, m, ContentOpen)
    ensures MetaAt(s, i, attr) == QuotedAt(s, m + |ContentOpen|)
  {
  }

  /** Each `\s+` of a split is the whole white-space run, so the split is the
      one MetaAt computes. */
  lemma MetaAtComplete(s: string, i: nat, attr: string, k: nat, m: nat, e: nat)
    requires attr == OgProperty || attr == TwitterName
    requires MetaSplit(s, i, attr, k, m, e)
    ensures MetaAt(s, i, attr) == Some(s[m + |ContentOpen|..e])
  {
    AtFirst(s, k, attr);
    NotSpace(s[k]);
    SkipSpaceExact(s, i + |MetaOpen|, k);
    AtFirst(s, m, ContentOpen);
    NotSpace(s[m]);
    SkipSpaceExact(s, k + |attr|, m);
    FindExact(s, m + |ContentOpen|, '"', e);
    MetaAtUnfold(s, i, attr, k, m);
  }

  lemma MetaAtMatches(s: string, i: nat, attr: string, c: string)
    requires i <= |s|
    requires attr == OgProperty || attr == TwitterName
    ensures MetaAt(s, i, attr) == Some(c) <==>
            exists k: nat, m: nat, e: nat :: MetaSplit(s, i, attr, k, m, e) && c == s[m + |ContentOpen|..e]
  {
    if MetaAt(s, i, attr) == Some(c) {
      MetaAtSound(s, i, attr, c);
    }
    if exists k: nat, m: nat, e: nat :: MetaSplit(s, i, attr, k, m, e) && c == s[m + |ContentOpen|..e] {
      var k: nat, m: nat, e: nat :| MetaSplit(s, i, attr, k, m, e) && c == s[m + |ContentOpen|..e];
      MetaAtComplete(s, i, attr, k, m, e);
    }
  }

  /** Every split of the `<img` pattern is a candidate LastSrc considers. */
  lemma ImgSplitIsCandidate(s: string, i: nat, j: nat, e: nat)
    requires ImgSplit(s, i, j, e)
    ensures j < Find(s, i + |ImgOpen|, '>') && SrcOk(s, j)
    ensures Find(s, j + |SrcOpen|, '"') == e
  {
    AtFirst(s, j, SrcOpen);
    FindExact(s, j + |SrcOpen|, '"', e);
  }

  lemma ImgAtSound(s: string, i: nat, c: string)
    requires i <= |s| && ImgAt(s, i) == Some(c)
    ensures exists j: nat, e: nat :: ImgSplit(s, i, j, e) && c == s[j + |SrcOpen|..e]
              && forall j': nat, e': nat :: ImgSplit(s, i, j', e') ==> j' <= j
  {
    var t := Find(s, i + |ImgOpen|, '>');
    var j := LastSrc(s, i + |ImgOpen| + 1, t).value;
    var e := Find(s, j + |SrcOpen|, '"');
    assert ImgSplit(s, i, j, e);
    forall j': nat, e': nat | ImgSplit(s, i, j', e') ensures j' <= j {
      ImgSplitIsCandidate(s, i, j', e');
    }
  }

  /** The greedy split (longest run before `src="`) is the one ImgAt finds. */
  lemma ImgAtComplete(s: string, i: nat, j: nat, e: nat)
    requires ImgSplit(s, i, j, e)
    requires forall j': nat, e': nat :: ImgSplit(s, i, j', e') ==> j' <= j
    ensures ImgAt(s, i) == Some(s[j + |SrcOpen|..e])
  {
    ImgSplitIsCandidate(s, i, j, e);
    var t := Find(s, i + |ImgOpen|, '>');
    var r := LastSrc(s, i + |ImgOpen| + 1, t);
    assert r.Some? && j <= r.value;
    var e2 := Find(s, r.value + |SrcOpen|, '"');
    assert ImgSplit(s, i, r.value, e2);
    assert r.value == j;
    assert ImgAt(s, i) == QuotedAt(s, j + |SrcOpen|);
  }

  lemma ImgAtMatches(s: string, i: nat, c: string)
    requires i <= |s|
    ensures ImgAt(s, i) == Some(c) <==>
            exists j: nat, e: nat :: ImgSplit(s, i, j, e) && c == s[j + |SrcOpen|..e]
              && forall j': nat, e': nat :: ImgSplit(s, i, j', e') ==> j' <= j
  {
    if ImgAt(s, i) == Some(c) {
      ImgAtSound(s, i, c);
    }
    if exists j: nat, e: nat :: ImgSplit(s, i, j, e) && c == s[j + |SrcOpen|..e]
         && forall j': nat, e': nat :: ImgSplit(s, i, j', e') ==> j' <= j {
      var j: nat, e: nat :| ImgSplit(s, i, j, e) && c == s[j + |SrcOpen|..e]
         && forall j': nat, e': nat :: ImgSplit(s, i, j', e') ==> j' <= j;
      ImgAtComplete(s, i, j, e);
    }
  }

  /** The computed capture is exactly the declarative one. */
  lemma CaptureAtMatches(p: Pattern, s: string, i: nat, c: string)
    requires i <= |s|
    ensures CaptureAt(p, s, i) == Some(c) <==> Matches(p, s, i, c)
  {
    match p
    case OgImage => MetaAtMatches(s, i, OgProperty, c);
    case TwitterImage => MetaAtMatches(s, i, TwitterName, c);
    case FirstImg => ImgAtMatches(s, i, c);
    case SrcAttr =>
      if exists e: nat :: SrcSplit(s, i, e) && c == s[i + |SrcOpen|..e] {
        var e: nat :| SrcSplit(s, i, e) && c == s[i + |SrcOpen|..e];
        FindExact(s, i + |SrcOpen|, '"', e);
      }
      if CaptureAt(p, s, i) == Some(c) {
        assert SrcSplit(s, i, Find(s, i + |SrcOpen|, '"'));
      }
  }

  lemma FirstMatchSound(p: Pattern, s: string, c: string)
    requires FirstMatch(p, s) == Some(c)
    ensures exists i: nat :: i < |s| && Matches(p, s, i, c)
              && forall k: nat, d :: k < i ==> !Matches(p, s, k, d)
  {
    var i := LeftmostFrom(p, s, 0).value;
    CaptureAtMatches(p, s, i, c);
    forall k: nat, d | k < i ensures !Matches(p, s, k, d) {
      CaptureAtMatches(p, s, k, d);
    }
  }

  lemma FirstMatchComplete(p: Pattern, s: string, c: string, i: nat)
    requires i < |s| && Matches(p, s, i, c)
    requires forall k: nat, d :: k < i ==> !Matches(p, s, k, d)
    ensures FirstMatch(p, s) == Some(c)
  {
    CaptureAtMatches(p, s, i, c);
    var r := LeftmostFrom(p, s, 0);
    assert r.Some? && r.value <= i;
    if r.value < i {
      var d := CaptureAt(p, s, r.value).value;
      CaptureAtMatches(p, s, r.value, d);
      assert false;
    }
  }

  /** FirstMatch returns `c` exactly when `p` matches with capture `c` at some
      position and at no earlier position with any capture: the leftmost-match
      rule of `String.prototype.match`. */
  lemma FirstMatchIsLeftmost(p: Pattern, s: string, c: string)
    ensures FirstMatch(p, s) == Some(c) <==>
            exists i: nat :: i < |s| && Matches(p, s, i, c)
              && forall k: nat, d :: k < i ==> !Matches(p, s, k, d)
  {
    if FirstMatch(p, s) == Some(c) {
      FirstMatchSound(p, s, c);
    }
    if exists i: nat :: i < |s| && Matches(p, s, i, c)
         && forall k: nat, d :: k < i ==> !Matches(p, s, k, d) {
      var i: nat :| i < |s| && Matches(p, s, i, c)
         && forall k: nat, d :: k < i ==> !Matches(p, s, k, d);
      FirstMatchComplete(p, s, c, i);
    }
  }

  /** `match` yields `null` exactly when the pattern matches nowhere. */
  lemma NoMatchAnywhere(p: Pattern, s: string)
    ensures FirstMatch(p, s).None? <==> forall i: nat, c :: i < |s| ==> !Matches(p, s, i, c)
  {
    if FirstMatch(p, s).None? {
      forall i: nat, c | i < |s| ensures !Matches(p, s, i, c) {
        CaptureAtMatches(p, s, i, c);
      }
    } else {
      var i := LeftmostFrom(p, s, 0).value;
      CaptureAtMatches(p, s, i, CaptureAt(p, s, i).value);
    }
  }
}
