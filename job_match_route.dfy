/**
 * The job-match endpoint: the request guard, the choice between a pasted
 * description and a fetched posting, the reduction of the fetched HTML to
 * plain text, the cleanup of the language model's reply and the error
 * responses.
 *
 * The fetch of the posting, the model call and `JSON.parse` are outcomes
 * handed in as parameters; the fixed prompt wording around the posting is a
 * parameter too.
 */
module JobMatchRoute {
  import opened JsText

  /** Longest job text handed to the model. */
  const MaxJobChars := 5000

  // ---------------------------------------------------------------------
  // HTML to text, step 1: `<script>` and `<style>` blocks
  // ---------------------------------------------------------------------

  /** First index at or after `from` where `pat` starts in `s`, letters
      compared without regard to case. */
  function FindCI(s: string, pat: string, from: nat): (k: Option<nat>)
    ensures k.Some? ==> from <= k.value <= |s| && StartsWithCI(s[k.value..], pat)
    ensures k.Some? ==> forall j :: from <= j < k.value ==> !StartsWithCI(s[j..], pat)
    ensures k.None? ==> forall j :: from <= j <= |s| ==> !StartsWithCI(s[j..], pat)
    decreases |s| - from
  {
    if from > |s| then None
    else if StartsWithCI(s[from..], pat) then Some(from)
    else if from == |s| then None
    else FindCI(s, pat, from + 1)
  }

  /** Length of the match of `<tag\b[^<]*(?:(?!<\/tag>)<[^<]*)*<\/tag>`
      (flag `i`) at the start of `s`: from `<tag`, when no word character
      follows it, up to the end of the first `</tag>` after it. */
  function BlockLength(s: string, tag: string): (n: Option<nat>)
    ensures n.Some? ==> 0 < n.value <= |s|
  {
    var open := "<" + tag;
    if StartsWithCI(s, open) && (|s| == |open| || !IsWordChar(s[|open|])) then
      match FindCI(s, "</" + tag + ">", |open|)
      case Some(k) => Some(k + |tag| + 3)
      case None => None
    else None
  }

  /** `s.replace(/<tag\b…<\/tag>/gi, '')`: scanning left to right, every
      block that matches at the scan position is deleted with its contents. */
  function StripBlocks(s: string, tag: string): (r: string)
    ensures |r| <= |s|
    decreases |s|
  {
    if s == [] then []
    else match BlockLength(s, tag)
      case Some(n) => StripBlocks(s[n..], tag)
      case None => [s[0]] + StripBlocks(s[1..], tag)
  }

  /** `b` is one whole block `<tag…>…</tag>`, in any mix of letter case,
      with no earlier closing tag inside it. */
  predicate IsBlock(b: string, tag: string) {
    var open := "<" + tag;
    var close := "</" + tag + ">";
    && |open| + |close| <= |b|
    && StartsWithCI(b, open)
    && !IsWordChar(b[|open|])
    && StartsWithCI(b[|b| - |close|..], close)
    && forall j :: |open| <= j < |b| - |close| ==> !StartsWithCI(b[j..], close)
  }

  lemma StartsWithCIAppend(x: string, y: string, pat: string)
    requires |pat| <= |x|
    ensures StartsWithCI(x + y, pat) == StartsWithCI(x, pat)
  {
    assert forall i :: 0 <= i < |pat| ==> (x + y)[i] == x[i];
  }

  /** Only a `<` can start a match of the block pattern. */
  lemma NoBlockWithoutOpen(s: string, tag: string)
    requires s != [] && s[0] != '<'
    ensures BlockLength(s, tag).None?
  {
  }

  lemma BlockLengthOfBlock(b: string, q: string, tag: string)
    requires IsBlock(b, tag)
    ensures BlockLength(b + q, tag) == Some(|b|)
  {
    var s := b + q;
    var open := "<" + tag;
    var close := "</" + tag + ">";
    var k := |b| - |close|;
    StartsWithCIAppend(b, q, open);
    assert s[|open|] == b[|open|];
    assert s[k..] == b[k..] + q;
    StartsWithCIAppend(b[k..], q, close);
    forall j | |open| <= j < k
      ensures !StartsWithCI(s[j..], close)
    {
      assert s[j..] == b[j..] + q;
      StartsWithCIAppend(b[j..], q, close);
    }
    var found := FindCI(s, close, |open|);
    assert found == Some(k);
  }

  /** No `<tag`, in any letter case, starts anywhere in `p`. */
  predicate NoOpening(p: string, tag: string) {
    forall i :: 0 <= i < |p| ==> !StartsWithCI(p[i..], "<" + tag)
  }

  /** A block is deleted whole, with everything in it, and the text before
      it is kept, whatever other tags that text holds, as long as no `<tag`
      starts in that text in any letter case. This also excludes `<tag`
      followed by a word character (`<scripts`, say), which would open no
      block; the condition is stronger than the source needs there. */
  lemma StripBlocksDeletesBlock(p: string, b: string, q: string, tag: string)
    requires '<' !in tag
    requires NoOpening(p, tag) && IsBlock(b, tag)
    ensures StripBlocks(p + b + q, tag) == p + StripBlocks(q, tag)
  {
    forall i | 0 <= i < |p|
      ensures !StartsWithCI((p + (b + q))[i..], "<" + tag)
    {
      NoOpeningAcross(p, b + q, tag, i);
    }
    StripBlocksKeepsPrefix(p, b + q, tag);
    assert p + b + q == p + (b + q);
    StripBlocksAtBlock(b, q, tag);
  }

  /** An opening cannot straddle the end of `p` when what follows starts
      with `<`, since the tag name holds no `<`. */
  lemma NoOpeningAcross(p: string, rest: string, tag: string, i: nat)
    requires '<' !in tag && NoOpening(p, tag) && i < |p|
    requires rest != [] && rest[0] == '<'
    ensures !StartsWithCI((p + rest)[i..], "<" + tag)
  {
    var open := "<" + tag;
    var s := (p + rest)[i..];
    if |p| - i >= |open| {
      assert s == p[i..] + rest;
      StartsWithCIAppend(p[i..], rest, open);
    } else {
      var k := |p| - i;
      assert s[k] == '<' && open[k] == tag[k - 1];
    }
  }

  /** Text in which no scan position starts a block passes unchanged. */
  lemma {:induction false} StripBlocksKeepsPrefix(p: string, rest: string, tag: string)
    requires forall i :: 0 <= i < |p| ==> !StartsWithCI((p + rest)[i..], "<" + tag)
    ensures StripBlocks(p + rest, tag) == p + StripBlocks(rest, tag)
  {
    if p == [] {
      assert p + rest == rest;
    } else {
      var s := p + rest;
      assert s[0..] == s;
      assert BlockLength(s, tag).None?;
      assert s[1..] == p[1..] + rest;
      forall i | 0 <= i < |p| - 1
        ensures !StartsWithCI((p[1..] + rest)[i..], "<" + tag)
      {
        assert (p[1..] + rest)[i..] == s[i + 1..];
      }
      StripBlocksKeepsPrefix(p[1..], rest, tag);
      assert p + StripBlocks(rest, tag) == [p[0]] + (p[1..] + StripBlocks(rest, tag));
    }
  }

  lemma StripBlocksAtBlock(b: string, q: string, tag: string)
    requires IsBlock(b, tag)
    ensures StripBlocks(b + q, tag) == StripBlocks(q, tag)
  {
    BlockLengthOfBlock(b, q, tag);
    assert (b + q)[|b|..] == q;
  }

  /** Text with no `<` passes through unchanged. */
  lemma {:induction false} StripBlocksPlain(s: string, tag: string)
    requires '<' !in s
    ensures StripBlocks(s, tag) == s
  {
    if s != [] {
      NoBlockWithoutOpen(s, tag);
      StripBlocksPlain(s[1..], tag);
    }
  }

  // ---------------------------------------------------------------------
  // HTML to text, step 2: every remaining tag becomes one space
  // ---------------------------------------------------------------------

  /** Length of the match of `<[^>]+>` at the start of `s`: from the `<` to
      the first `>`, provided at least one character lies between. */
  function TagLength(s: string): (n: Option<nat>)
    ensures n.Some? ==> 3 <= n.value <= |s|
  {
    if s != [] && s[0] == '<' then
      match IndexOfFrom(s, '>', 1)
      case Some(k) => if k >= 2 then Some(k + 1) else None
      case None => None
    else None
  }

  /** `s.replace(/<[^>]+>/g, ' ')`. */
  function StripTags(s: string): (r: string)
    decreases |s|
  {
    if s == [] then []
    else match TagLength(s)
      case Some(n) => [' '] + StripTags(s[n..])
      case None => [s[0]] + StripTags(s[1..])
  }

  /** `t` holds no match of `<[^>]+>`: a `<` that has a `>` anywhere after
      it is immediately followed by `>`. */
  predicate NoTag(t: string) {
    forall i, j :: 0 <= i < j < |t| && t[i] == '<' && t[j] == '>' ==> t[i + 1] == '>'
  }

  /** `t` is one tag: `<`, at least one character other than `>`, `>`. */
  predicate IsTag(t: string) {
    |t| >= 3 && t[0] == '<' && t[|t| - 1] == '>' && '>' !in t[1..|t| - 1]
  }

  lemma StripTagsKeepsFirst(s: string)
    requires s != [] && s[0] != '<'
    ensures StripTags(s) != [] && StripTags(s)[0] == s[0]
  {
  }

  lemma {:induction false} StripTagsAddsNoClose(s: string)
    requires '>' !in s
    ensures '>' !in StripTags(s)
    decreases |s|
  {
    if s != [] {
      match TagLength(s)
      case Some(n) => StripTagsAddsNoClose(s[n..]);
      case None => StripTagsAddsNoClose(s[1..]);
    }
  }

  /** After the tag pass no tag is left. */
  lemma {:induction false} StripTagsLeavesNoTag(s: string)
    ensures NoTag(StripTags(s))
    decreases |s|
  {
    if s != [] {
      var r := StripTags(s);
      match TagLength(s)
      case Some(n) =>
        StripTagsLeavesNoTag(s[n..]);
        var rest := StripTags(s[n..]);
        assert r == [' '] + rest;
        forall i, j | 0 <= i < j < |r| && r[i] == '<' && r[j] == '>'
          ensures r[i + 1] == '>'
        {
          assert rest[i - 1] == '<' && rest[j - 1] == '>';
        }
      case None =>
        StripTagsLeavesNoTag(s[1..]);
        var rest := StripTags(s[1..]);
        assert r == [s[0]] + rest;
        forall i, j | 0 <= i < j < |r| && r[i] == '<' && r[j] == '>'
          ensures r[i + 1] == '>'
        {
          if i == 0 {
            assert s[0] == '<';
            assert rest[j - 1] == '>';
            if IndexOfFrom(s, '>', 1).None? {
              assert '>' !in s[1..];
              StripTagsAddsNoClose(s[1..]);
              assert false;
            }
            assert s[1] == '>';
            StripTagsKeepsFirst(s[1..]);
          } else {
            assert rest[i - 1] == '<' && rest[j - 1] == '>';
          }
        }
    }
  }

  /** A tag is replaced by exactly one space, wherever it stands after text
      that holds no `<`. */
  lemma {:induction false} StripTagsReplacesTag(p: string, t: string, q: string)
    requires '<' !in p && IsTag(t)
    ensures StripTags(p + t + q) == p + " " + StripTags(q)
  {
    var s := p + t + q;
    if p == [] {
      assert s == t + q;
      forall j | 1 <= j < |t| - 1
        ensures s[j] != '>'
      {
        assert s[j] == t[1..|t| - 1][j - 1];
      }
      assert s[|t| - 1] == '>';
      var k := IndexOfFrom(s, '>', 1);
      assert k == Some(|t| - 1);
      assert s[|t|..] == q;
    } else {
      assert s[1..] == p[1..] + t + q;
      StripTagsReplacesTag(p[1..], t, q);
    }
  }

  // ---------------------------------------------------------------------
  // HTML to text, steps 3-5: whitespace, trim, length limit
  // ---------------------------------------------------------------------

  /** `s.replace(/\s+/g, ' ')`: every run of whitespace becomes one space. */
  function CollapseSpaces(s: string): (r: string)
    ensures forall i :: 0 <= i < |r| && IsSpace(r[i]) ==> r[i] == ' '
    ensures forall i :: 0 <= i < |r| - 1 ==> !(IsSpace(r[i]) && IsSpace(r[i + 1]))
    ensures s != [] ==> r != [] && (IsSpace(r[0]) <==> IsSpace(s[0]))
    ensures s != [] && !IsSpace(s[0]) ==> r[0] == s[0]
    ensures NonSpace(r) == NonSpace(s)
    decreases |s|
  {
    if s == [] then []
    else if IsSpace(s[0]) then
      var rest := CollapseSpaces(TrimStart(s));
      NonSpaceTrimStart(s);
      [' '] + rest
    else
      var rest := CollapseSpaces(s[1..]);
      [s[0]] + rest
  }

  /** Text without whitespace is left as it is. */
  lemma {:induction false} CollapseSpacesPlain(s: string)
    requires forall i :: 0 <= i < |s| ==> !IsSpace(s[i])
    ensures CollapseSpaces(s) == s
  {
    if s != [] {
      CollapseSpacesPlain(s[1..]);
    }
  }

  /** Each run of whitespace, wherever it stands, becomes exactly one
      space between the collapsed text before it and the collapsed text
      after it. */
  lemma CollapseSpacesRun(p: string, w: string, q: string)
    requires w != [] && AllSpace(w)
    requires p == [] || !IsSpace(p[|p| - 1])
    requires q == [] || !IsSpace(q[0])
    ensures CollapseSpaces(p + w + q) == CollapseSpaces(p) + " " + CollapseSpaces(q)
  {
    Associate(p, w, q);
    CollapseSpacesAppend(p, w + q);
    TrimStartOfRun(w, q);
    CollapseSpacesUnfold(w + q);
    Associate(CollapseSpaces(p), " ", CollapseSpaces(q));
  }

  /** A split right after a non-whitespace character cuts no run, so the
      two sides collapse on their own. */
  lemma {:induction false} CollapseSpacesAppend(p: string, rest: string)
    requires p == [] || !IsSpace(p[|p| - 1])
    ensures CollapseSpaces(p + rest) == CollapseSpaces(p) + CollapseSpaces(rest)
    decreases |p|, 1
  {
    if p == [] {
      assert p + rest == rest;
    } else if IsSpace(p[0]) {
      AppendAfterRun(p, rest);
    } else {
      AppendAfterChar(p, rest);
    }
  }

  lemma {:induction false} AppendAfterRun(p: string, rest: string)
    requires p != [] && IsSpace(p[0]) && !IsSpace(p[|p| - 1])
    ensures CollapseSpaces(p + rest) == CollapseSpaces(p) + CollapseSpaces(rest)
    decreases |p|, 0
  {
    var t := TrimStart(p);
    TrimStartKeepsTail(p, []);
    CollapseSpacesAppend(t, rest);
    CollapseLeadingRun(p, rest);
    Associate([' '], CollapseSpaces(t), CollapseSpaces(rest));
  }

  lemma {:induction false} AppendAfterChar(p: string, rest: string)
    requires p != [] && !IsSpace(p[0]) && !IsSpace(p[|p| - 1])
    ensures CollapseSpaces(p + rest) == CollapseSpaces(p) + CollapseSpaces(rest)
    decreases |p|, 0
  {
    var tail := p[1..];
    assert tail == [] || tail[|tail| - 1] == p[|p| - 1];
    CollapseLeadingChar(p, rest);
    CollapseSpacesAppend(tail, rest);
    Associate([p[0]], CollapseSpaces(tail), CollapseSpaces(rest));
  }

  /** A leading run of a text that ends in a non-whitespace character
      becomes one space, whatever follows the text. */
  lemma CollapseLeadingRun(p: string, rest: string)
    requires p != [] && IsSpace(p[0]) && !IsSpace(p[|p| - 1])
    ensures CollapseSpaces(p + rest) == [' '] + CollapseSpaces(TrimStart(p) + rest)
    ensures CollapseSpaces(p) == [' '] + CollapseSpaces(TrimStart(p))
    ensures TrimStart(p) != [] && !IsSpace(TrimStart(p)[|TrimStart(p)| - 1]) && |TrimStart(p)| < |p|
  {
    TrimStartKeepsTail(p, rest);
    assert (p + rest)[0] == p[0];
    CollapseSpacesUnfold(p + rest);
    CollapseSpacesUnfold(p);
  }

  /** A leading non-whitespace character is kept, whatever follows the
      text. */
  lemma CollapseLeadingChar(p: string, rest: string)
    requires p != [] && !IsSpace(p[0])
    ensures CollapseSpaces(p + rest) == [p[0]] + CollapseSpaces(p[1..] + rest)
    ensures CollapseSpaces(p) == [p[0]] + CollapseSpaces(p[1..])
  {
    var s := p + rest;
    assert s[0] == p[0];
    assert s[1..] == p[1..] + rest;
    CollapseSpacesUnfold(s);
    CollapseSpacesUnfold(p);
  }

  lemma Associate(a: string, b: string, c: string)
    ensures a + b + c == a + (b + c)
  {
  }

  /** One step of `CollapseSpaces`: a leading run becomes one space, any
      other character is kept. */
  lemma CollapseSpacesUnfold(s: string)
    requires s != []
    ensures IsSpace(s[0]) ==> CollapseSpaces(s) == [' '] + CollapseSpaces(TrimStart(s))
    ensures !IsSpace(s[0]) ==> CollapseSpaces(s) == [s[0]] + CollapseSpaces(s[1..])
  {
  }

  lemma {:induction false} TrimStartOfRun(w: string, q: string)
    requires AllSpace(w) && (q == [] || !IsSpace(q[0]))
    ensures TrimStart(w + q) == q
    decreases |w|
  {
    if w == [] {
      assert w + q == q;
    } else {
      assert (w + q)[1..] == w[1..] + q;
      TrimStartOfRun(w[1..], q);
    }
  }

  /** Leading whitespace stops inside a text that ends in a non-whitespace
      character, so what follows that text is kept. */
  lemma {:induction false} TrimStartKeepsTail(p: string, rest: string)
    requires p != [] && !IsSpace(p[|p| - 1])
    ensures TrimStart(p + rest) == TrimStart(p) + rest
    ensures TrimStart(p) != [] && !IsSpace(TrimStart(p)[|TrimStart(p)| - 1]) && |TrimStart(p)| <= |p|
    ensures IsSpace(p[0]) ==> |TrimStart(p)| < |p|
    decreases |p|
  {
    if IsSpace(p[0]) {
      assert (p + rest)[1..] == p[1..] + rest;
      TrimStartKeepsTail(p[1..], rest);
    }
  }

  /** Collapsing leaves a text without tags without tags. */
  lemma {:induction false} CollapseKeepsNoTag(s: string)
    requires NoTag(s)
    ensures NoTag(CollapseSpaces(s))
    decreases |s|
  {
    if s != [] {
      CollapseSpacesUnfold(s);
      if IsSpace(s[0]) {
        var t := TrimStart(s);
        SuffixKeepsNoTag(s, |s| - |t|);
        CollapseKeepsNoTag(t);
        PrependKeepsNoTag(' ', CollapseSpaces(t));
      } else {
        SuffixKeepsNoTag(s, 1);
        CollapseKeepsNoTag(s[1..]);
        var rest := CollapseSpaces(s[1..]);
        if s[0] == '<' && '>' in rest {
          var m :| 0 <= m < |rest| && rest[m] == '>';
          NonSpaceHas(rest, m);
          var k := NonSpaceFrom(s[1..], '>');
          assert s[k + 1] == '>';
          assert s[1] == '>';
        }
        PrependKeepsNoTag(s[0], rest);
      }
    }
  }

  /** A character in front of a text without tags adds none, unless it
      opens a `<` that some later `>` would close. */
  lemma PrependKeepsNoTag(c: char, rest: string)
    requires NoTag(rest)
    requires c == '<' && '>' in rest ==> rest[0] == '>'
    ensures NoTag([c] + rest)
  {
    var r := [c] + rest;
    forall i, j | 0 <= i < j < |r| && r[i] == '<' && r[j] == '>'
      ensures r[i + 1] == '>'
    {
      if i == 0 {
        assert rest[j - 1] == '>';
      } else {
        assert rest[i - 1] == '<' && rest[j - 1] == '>';
      }
    }
  }

  lemma {:induction false} NonSpaceHas(s: string, i: nat)
    requires i < |s| && !IsSpace(s[i])
    ensures s[i] in NonSpace(s)
  {
    if i > 0 {
      NonSpaceHas(s[1..], i - 1);
    }
  }

  /** A character kept by `NonSpace` comes from somewhere in the text. */
  lemma {:induction false} NonSpaceFrom(s: string, c: char) returns (k: nat)
    requires c in NonSpace(s)
    ensures k < |s| && s[k] == c
  {
    if s[0] == c {
      k := 0;
    } else {
      var k' := NonSpaceFrom(s[1..], c);
      k := k' + 1;
    }
  }

  lemma SuffixKeepsNoTag(s: string, a: nat)
    requires NoTag(s) && a <= |s|
    ensures NoTag(s[a..])
  {
    var t := s[a..];
    forall i, j | 0 <= i < j < |t| && t[i] == '<' && t[j] == '>'
      ensures t[i + 1] == '>'
    {
      assert s[a + i] == '<' && s[a + j] == '>';
    }
  }

  lemma SliceKeepsNoTag(s: string, a: nat, b: nat)
    requires NoTag(s) && a <= b <= |s|
    ensures NoTag(s[a..b])
  {
    var t := s[a..b];
    forall i, j | 0 <= i < j < |t| && t[i] == '<' && t[j] == '>'
      ensures t[i + 1] == '>'
    {
      assert s[a + i] == '<' && s[a + j] == '>';
    }
  }

  /** Only single spaces stand for whitespace in `t`. */
  predicate SingleSpaced(t: string) {
    && (forall i :: 0 <= i < |t| && IsSpace(t[i]) ==> t[i] == ' ')
    && (forall i :: 0 <= i < |t| - 1 ==> !(IsSpace(t[i]) && IsSpace(t[i + 1])))
  }

  lemma SliceKeepsSingleSpaced(c: string, a: nat, b: nat)
    requires SingleSpaced(c) && a <= b <= |c|
    ensures SingleSpaced(c[a..b])
  {
    var t := c[a..b];
    assert forall k :: 0 <= k < |t| ==> t[k] == c[a + k];
  }

  /** Trimming a collapsed text without tags keeps all three properties. */
  lemma TrimCollapsedFacts(s: string)
    requires NoTag(s)
    ensures SingleSpaced(Trim(CollapseSpaces(s)))
    ensures NoTag(Trim(CollapseSpaces(s)))
    ensures NonSpace(Trim(CollapseSpaces(s))) == NonSpace(s)
  {
    var collapsed := CollapseSpaces(s);
    var t := Trim(collapsed);
    CollapseKeepsNoTag(s);
    var i, j :| 0 <= i <= j <= |collapsed| && t == collapsed[i..j];
    SliceKeepsNoTag(collapsed, i, j);
    SliceKeepsSingleSpaced(collapsed, i, j);
    TrimKeepsContent(collapsed);
  }

  /** The text of a page before the length limit: scripts and styles
      removed, tags turned into spaces, whitespace collapsed, trimmed. */
  function PageText(html: string): (t: string)
    ensures Unpadded(t)
    ensures SingleSpaced(t)
    ensures NoTag(t)
    ensures NonSpace(t) == NonSpace(StripTags(StripBlocks(StripBlocks(html, "script"), "style")))
  {
    var tagless := StripTags(StripBlocks(StripBlocks(html, "script"), "style"));
    StripTagsLeavesNoTag(StripBlocks(StripBlocks(html, "script"), "style"));
    TrimCollapsedFacts(tagless);
    Trim(CollapseSpaces(tagless))
  }

  /** The job text taken from a fetched page (`…trim().substring(0, 5000)`). */
  function ExtractText(html: string): (r: string)
    ensures |r| <= MaxJobChars && |r| <= |PageText(html)|
    ensures r == PageText(html)[..|r|]
    ensures |PageText(html)| <= MaxJobChars ==> r == PageText(html)
    ensures |PageText(html)| > MaxJobChars ==> |r| == MaxJobChars
    ensures r == [] || !IsSpace(r[0])
    ensures SingleSpaced(r)
    ensures NoTag(r)
  {
    var t := PageText(html);
    var r := if |t| <= MaxJobChars then t else t[..MaxJobChars];
    SliceKeepsNoTag(t, 0, |r|);
    SliceKeepsSingleSpaced(t, 0, |r|);
    assert r == t[0..|r|];
    r
  }

  // ---------------------------------------------------------------------
  // Cleanup of the model's reply
  // ---------------------------------------------------------------------

  /** `s.replace(/<fence>\n?/g, '')`: every occurrence of `fence` is
      deleted together with one newline right after it. */
  function DeleteFence(s: string, fence: string): (r: string)
    requires fence != []
    ensures |r| <= |s|
    decreases |s|
  {
    if s == [] then []
    else if fence <= s then
      var t := s[|fence|..];
      if t != [] && t[0] == '\n' then DeleteFence(t[1..], fence) else DeleteFence(t, fence)
    else [s[0]] + DeleteFence(s[1..], fence)
  }

  /** `text.replace(/```json\n?/g, '').replace(/```\n?/g, '').trim()`. */
  function CleanReply(text: string): (r: string)
    ensures Unpadded(r)
  {
    Trim(DeleteFence(DeleteFence(text, "```json"), "```"))
  }

  lemma {:induction false} DeleteFenceSkipsPlain(a: string, b: string, fence: string)
    requires fence != [] && fence[0] == '`' && '`' !in a
    ensures DeleteFence(a + b, fence) == a + DeleteFence(b, fence)
  {
    if a == [] {
      assert a + b == b;
    } else {
      var s := a + b;
      assert s[0] == a[0] && a[0] != fence[0];
      assert !(fence <= s);
      assert s[1..] == a[1..] + b;
      DeleteFenceSkipsPlain(a[1..], b, fence);
    }
  }

  lemma DeleteFenceAtFence(fence: string, rest: string)
    requires fence != []
    ensures DeleteFence(fence + rest, fence) ==
              if rest != [] && rest[0] == '\n' then DeleteFence(rest[1..], fence) else DeleteFence(rest, fence)
  {
    var s := fence + rest;
    assert fence <= s;
    assert s[|fence|..] == rest;
  }

  lemma {:induction false} DeleteFenceShort(s: string, fence: string)
    requires fence != [] && |s| < |fence|
    ensures DeleteFence(s, fence) == s
  {
    if s != [] {
      DeleteFenceShort(s[1..], fence);
    }
  }

  lemma FirstPassUnfences(j: string)
    requires '`' !in j
    ensures DeleteFence("```json\n" + j + "\n```", "```json") == j + "\n```"
  {
    var body := j + "\n```";
    assert "```json\n" + j + "\n```" == "```json" + ("\n" + body);
    DeleteFenceAtFence("```json", "\n" + body);
    assert ("\n" + body)[1..] == body;
    assert body == (j + "\n") + "```";
    DeleteFenceSkipsPlain(j + "\n", "```", "```json");
    DeleteFenceShort("```", "```json");
  }

  lemma SecondPassUnfences(j: string)
    requires '`' !in j
    ensures DeleteFence(j + "\n```", "```") == j + "\n"
  {
    assert j + "\n```" == (j + "\n") + "```";
    DeleteFenceSkipsPlain(j + "\n", "```", "```");
    DeleteFenceAtFence("```", []);
    assert "```" + [] == "```";
    assert (j + "\n") + [] == j + "\n";
  }

  /** A reply fenced as a JSON code block comes out as the bare JSON. */
  lemma FencedReplyUnwrapped(j: string)
    requires '`' !in j && Unpadded(j)
    ensures CleanReply("```json\n" + j + "\n```") == j
  {
    FirstPassUnfences(j);
    SecondPassUnfences(j);
    TrimPadded(j, "\n");
  }

  /** A reply without backticks or surrounding whitespace is kept as is. */
  lemma PlainReplyKept(j: string)
    requires '`' !in j && Unpadded(j)
    ensures CleanReply(j) == j
  {
    DeleteFenceSkipsPlain(j, [], "```json");
    DeleteFenceSkipsPlain(j, [], "```");
    assert j + [] == j;
    TrimPadded(j, []);
    assert j + [] == j;
  }

  // ---------------------------------------------------------------------
  // The POST handler
  // ---------------------------------------------------------------------

  /** The body fields; "" stands for a field that is missing or falsy. */
  datatype JobRequest = JobRequest(jobUrl: string, jobDescription: string)

  /** What `fetch(jobUrl)` followed by `response.text()` gives. */
  datatype Posting = Page(html: string) | FetchThrew

  /** What the model call gives. */
  datatype Generation = Reply(text: string) | ModelThrew

  datatype Body<J> = Analysis(analysis: J) | Error(message: string)

  /** Every response is JSON; `status` is the HTTP status. */
  datatype Response<J> = Response(status: nat, body: Body<J>)

  /** The response together with the URL fetched and the prompt sent, if any. */
  datatype Exchange<J> = Exchange(fetched: Option<string>, prompt: Option<string>, response: Response<J>)

  /** The fixed wording of the prompt before and after the job posting
      (instructions, résumé, skills and projects). */
  datatype PromptWords = PromptWords(before: string, after: string)

  const MissingInput := "Please provide either a job URL or job description"
  const FetchFailed := "Failed to fetch job posting. Please paste the job description instead."
  const AnalysisFailed := "Failed to analyze job posting. Please try again."
  const RequestFailed := "Failed to process job match request"

  function Prompt(words: PromptWords, jobContent: string): (p: string)
    ensures |p| == |words.before| + |jobContent| + |words.after|
    ensures p[..|words.before|] == words.before
    ensures p[|words.before|..|words.before| + |jobContent|] == jobContent
    ensures p[|words.before| + |jobContent|..] == words.after
  {
    words.before + jobContent + words.after
  }

  /** `POST /api/job-match`. `request` is None when the body is not JSON;
      `parse` stands for `JSON.parse`. */
  method Post<J>(request: Option<JobRequest>, words: PromptWords, posting: Posting,
                 generation: Generation, parse: string -> Option<J>)
    returns (x: Exchange<J>)
    ensures request.None? ==> x == Exchange(None, None, Response(500, Error(RequestFailed)))
    ensures request.Some? && request.value.jobUrl == [] && request.value.jobDescription == [] ==>
              x == Exchange(None, None, Response(400, Error(MissingInput)))
    ensures request.Some? && request.value.jobDescription != [] ==>
              x.fetched == None && x.prompt == Some(Prompt(words, request.value.jobDescription))
    ensures request.Some? && request.value.jobUrl != [] && request.value.jobDescription == [] ==>
              && x.fetched == Some(request.value.jobUrl)
              && (posting.FetchThrew? ==> x.prompt == None && x.response == Response(400, Error(FetchFailed)))
              && (posting.Page? ==> x.prompt == Some(Prompt(words, ExtractText(posting.html))))
    ensures x.prompt.Some? && generation.ModelThrew? ==> x.response == Response(500, Error(RequestFailed))
    ensures x.prompt.Some? && generation.Reply? ==>
              x.response == match parse(CleanReply(generation.text))
                            case Some(a) => Response(200, Analysis(a))
                            case None => Response(500, Error(AnalysisFailed))
  {
    if request.None? {
      return Exchange(None, None, Response(500, Error(RequestFailed)));
    }
    var jobUrl, jobDescription := request.value.jobUrl, request.value.jobDescription;
    if jobUrl == [] && jobDescription == [] {
      return Exchange(None, None, Response(400, Error(MissingInput)));
    }
    var jobContent := jobDescription;
    var fetched: Option<string> := None;
    if jobUrl != [] && jobDescription == [] {
      fetched := Some(jobUrl);
      match posting
      case FetchThrew =>
        return Exchange(fetched, None, Response(400, Error(FetchFailed)));
      case Page(html) =>
        jobContent := ExtractText(html);
    }
    var prompt := Prompt(words, jobContent);
    match generation
    case ModelThrew =>
      x := Exchange(fetched, Some(prompt), Response(500, Error(RequestFailed)));
    case Reply(text) =>
      match parse(CleanReply(text))
      case Some(a) =>
        x := Exchange(fetched, Some(prompt), Response(200, Analysis(a)));
      case None =>
        x := Exchange(fetched, Some(prompt), Response(500, Error(AnalysisFailed)));
  }
}
