/**
 * Locating the JSON text in the model's reply (services/geminiService.ts):
 * the reply is trimmed, then the first match of /```json([\s\S]*?)```/ is
 * taken, else the first match of /```([\s\S]*?)```/, else the trimmed reply
 * itself. A regular-expression match is leftmost, and the lazy group ends
 * at the first closing fence after the opener.
 */
module Extract {
  import opened Wrappers
  import opened Text

  const FENCE: string := "```"
  const JSON_FENCE: string := "```json"

  /** Some closing fence starts at or after index `from`. */
  ghost predicate HasCloseFrom(s: string, from: int)
  {
    exists e :: from <= e && OccursAt(s, FENCE, e)
  }

  /** An occurrence of `open` at `p` that a closing fence follows: a position the regex matches at. */
  ghost predicate MatchesAt(s: string, open: string, p: int)
  {
    OccursAt(s, open, p) && HasCloseFrom(s, p + |open|)
  }

  /**
   * The match the regex engine reports: the leftmost position `p` it
   * matches at, and the first closing fence `e` after the opener.
   */
  ghost predicate FirstMatch(s: string, open: string, p: int, e: int)
  {
    && MatchesAt(s, open, p)
    && (forall q | 0 <= q < p :: !MatchesAt(s, open, q))
    && p + |open| <= e && OccursAt(s, FENCE, e)
    && (forall k | p + |open| <= k < e :: !OccursAt(s, FENCE, k))
  }

  /** The first closing fence at or after `from`. */
  function CloseFrom(s: string, from: nat): (r: Option<nat>)
    ensures r.Some? ==> from <= r.value && OccursAt(s, FENCE, r.value)
    ensures r.Some? ==> forall k | from <= k < r.value :: !OccursAt(s, FENCE, k)
    ensures r.None? <==> !HasCloseFrom(s, from)
    decreases |s| - from
  {
    if from + |FENCE| > |s| then None
    else if s[from..from + |FENCE|] == FENCE then
      assert OccursAt(s, FENCE, from);
      Some(from)
    else CloseFrom(s, from + 1)
  }

  /** The leftmost match at or after `from`, as (opener position, closing fence position). */
  function MatchFrom(s: string, open: string, from: nat): (r: Option<(nat, nat)>)
    ensures r.Some? ==> from <= r.value.0 && MatchesAt(s, open, r.value.0)
    ensures r.Some? ==> forall q | from <= q < r.value.0 :: !MatchesAt(s, open, q)
    ensures r.Some? ==> CloseFrom(s, r.value.0 + |open|) == Some(r.value.1)
    ensures r.None? ==> forall q | from <= q :: !MatchesAt(s, open, q)
    decreases |s| - from
  {
    if from + |open| > |s| then None
    else if s[from..from + |open|] == open && CloseFrom(s, from + |open|).Some? then
      Some((from, CloseFrom(s, from + |open|).value))
    else MatchFrom(s, open, from + 1)
  }

  /** The capture group of the first match of the fenced-block pattern opened by `open`. */
  function FirstBlock(s: string, open: string): (r: Option<string>)
    ensures r.None? <==> forall q :: !MatchesAt(s, open, q)
    ensures forall p, e | FirstMatch(s, open, p, e) :: r == Some(s[p + |open|..e])
  {
    match MatchFrom(s, open, 0)
    case None => None
    case Some((p, e)) =>
      forall p', e' | FirstMatch(s, open, p', e')
        ensures p' == p && e' == e
      {
        assert !(p' < p) && !(p < p');
      }
      Some(s[p + |open|..e])
  }

  /**
   * The text handed to `JSON.parse`: the content of the first ```json
   * block if there is one, else of the first fenced block, else the whole
   * trimmed reply.
   */
  function ExtractJsonText(text: string): (r: string)
    ensures var t := Trim(text);
      && (forall p, e | FirstMatch(t, JSON_FENCE, p, e) :: r == t[p + |JSON_FENCE|..e])
      && ((forall q :: !MatchesAt(t, JSON_FENCE, q)) ==>
            forall p, e | FirstMatch(t, FENCE, p, e) :: r == t[p + |FENCE|..e])
      && ((forall q :: !MatchesAt(t, JSON_FENCE, q) && !MatchesAt(t, FENCE, q)) ==> r == t)
  {
    var t := Trim(text);
    match FirstBlock(t, JSON_FENCE)
    case Some(c) => c
    case None =>
      match FirstBlock(t, FENCE)
      case Some(c) => c
      case None => t
  }

  /** Whenever some opener has a closing fence after it, the first match exists. */
  lemma FirstMatchExists(s: string, open: string, q: int)
    requires MatchesAt(s, open, q)
    ensures exists p, e :: FirstMatch(s, open, p, e)
  {
    var m := MatchFrom(s, open, 0);
    assert m.Some?;
    var (p, e) := m.value;
    assert FirstMatch(s, open, p, e);
  }

  /** A string that neither starts nor ends with a space is its own trim. */
  lemma TrimUnchanged(t: string)
    requires |t| > 0 && !IsSpace(t[0]) && !IsSpace(t[|t| - 1])
    ensures Trim(t) == t
  {
    var i, j :| 0 <= i <= j <= |t| && Trim(t) == t[i..j] && AllSpace(t[..i]) && AllSpace(t[j..]);
    if i > 0 { assert t[..i][0] == t[0]; }
    if j < |t| { assert t[j..][|t| - j - 1] == t[|t| - 1]; }
  }

  /** The regex match facts, stated position by position, establish the first match. */
  lemma FirstMatchIntro(t: string, open: string, p: int, e: int)
    requires OccursAt(t, open, p) && p + |open| <= e && OccursAt(t, FENCE, e)
    requires forall q | 0 <= q < p :: !OccursAt(t, open, q)
    requires forall k | p + |open| <= k < e :: !OccursAt(t, FENCE, k)
    ensures FirstMatch(t, open, p, e)
  {
  }

  /** No occurrence of a backtick-led pattern starts inside a stretch free of backticks. */
  lemma NoFenceIn(t: string, pat: string, lo: int, hi: int)
    requires |pat| > 0 && pat[0] == '`'
    requires 0 <= lo <= hi <= |t| && '`' !in t[lo..hi]
    ensures forall k | lo <= k < hi :: !OccursAt(t, pat, k)
  {
    forall k | lo <= k < hi
      ensures !OccursAt(t, pat, k)
    {
      assert t[lo..hi][k - lo] == t[k];
    }
  }

  /**
   * A ```json opener at `p` with no backtick before it, followed by `body`
   * free of backticks and a closing fence, is the first match.
   */
  lemma SingleJsonBlockMatch(t: string, p: int, body: string)
    requires 0 <= p <= |t| && '`' !in t[..p]
    requires OccursAt(t, JSON_FENCE, p)
    requires p + |JSON_FENCE| + |body| <= |t| && t[p + |JSON_FENCE|..p + |JSON_FENCE| + |body|] == body
    requires '`' !in body
    requires OccursAt(t, FENCE, p + |JSON_FENCE| + |body|)
    ensures FirstMatch(t, JSON_FENCE, p, p + |JSON_FENCE| + |body|)
  {
    var c := p + |JSON_FENCE|;
    var e := c + |body|;
    NoFenceIn(t, JSON_FENCE, 0, p);
    NoFenceIn(t, FENCE, c, e);
    FirstMatchIntro(t, JSON_FENCE, p, e);
  }

  /** When the reply needs no trimming and has a first ```json match, its content is the extracted text. */
  lemma ExtractFromJsonMatch(t: string, p: int, e: int)
    requires |t| > 0 && !IsSpace(t[0]) && !IsSpace(t[|t| - 1])
    requires FirstMatch(t, JSON_FENCE, p, e)
    ensures ExtractJsonText(t) == t[p + |JSON_FENCE|..e]
  {
    TrimUnchanged(t);
  }

  /**
   * A reply that neither starts nor ends with a space, has no backtick before a ```json
   * opener and no backtick in the text up to the next fence yields exactly
   * that text: the prose around a single block is ignored.
   */
  lemma SingleJsonBlock(t: string, p: int, body: string)
    requires |t| > 0 && !IsSpace(t[0]) && !IsSpace(t[|t| - 1])
    requires 0 <= p <= |t| && '`' !in t[..p]
    requires OccursAt(t, JSON_FENCE, p)
    requires p + |JSON_FENCE| + |body| <= |t| && t[p + |JSON_FENCE|..p + |JSON_FENCE| + |body|] == body
    requires '`' !in body
    requires OccursAt(t, FENCE, p + |JSON_FENCE| + |body|)
    ensures ExtractJsonText(t) == body
  {
    SingleJsonBlockMatch(t, p, body);
    ExtractFromJsonMatch(t, p, p + |JSON_FENCE| + |body|);
  }

  /** A fenced block labelled json around `body`. */
  function JsonBlock(body: string): string
  {
    JSON_FENCE + body + FENCE
  }

  /** Where the pieces of `before + JsonBlock(body) + after` lie. */
  lemma FramedLayout(before: string, body: string, after: string)
    ensures var t := before + JsonBlock(body) + after;
      var c := |before| + |JSON_FENCE|;
      && t[..|before|] == before
      && OccursAt(t, JSON_FENCE, |before|)
      && c + |body| <= |t| && t[c..c + |body|] == body
      && OccursAt(t, FENCE, c + |body|)
  {
    var block := JsonBlock(body);
    var t := before + block + after;
    var p := |before|;
    var c := p + |JSON_FENCE|;
    var e := c + |body|;
    assert t[p..p + |block|] == block;
    assert t[p..c] == block[..|JSON_FENCE|] == JSON_FENCE;
    assert t[c..e] == block[|JSON_FENCE|..|JSON_FENCE| + |body|] == body;
    assert t[e..e + |FENCE|] == block[|JSON_FENCE| + |body|..] == FENCE;
  }

  /**
   * Prose, one ```json block and more prose: when neither the leading prose
   * nor the block holds a backtick, the extracted text is the block's
   * content, whatever the trailing prose holds.
   */
  lemma ProseAroundJsonBlock(before: string, body: string, after: string)
    requires |before| > 0 && !IsSpace(before[0]) && |after| > 0 && !IsSpace(after[|after| - 1])
    requires '`' !in before && '`' !in body
    ensures ExtractJsonText(before + JsonBlock(body) + after) == body
  {
    var t := before + JsonBlock(body) + after;
    assert t[0] == before[0] && t[|t| - 1] == after[|after| - 1];
    FramedLayout(before, body, after);
    SingleJsonBlock(t, |before|, body);
  }

  /** A reply without any backtick is handed to the parser trimmed and otherwise unchanged. */
  lemma NoFenceMeansTrimmed(text: string)
    requires '`' !in text
    ensures ExtractJsonText(text) == Trim(text)
  {
    var t := Trim(text);
    TrimKeepsAbsent(text, '`');
    NoFenceIn(t, JSON_FENCE, 0, |t|);
    NoFenceIn(t, FENCE, 0, |t|);
    assert t[0..|t|] == t;
  }

  /** Trimming adds no character. */
  lemma TrimKeepsAbsent(text: string, c: char)
    requires c !in text
    ensures c !in Trim(text)
  {
    var t := Trim(text);
    var i, j :| 0 <= i <= j <= |text| && t == text[i..j] && AllSpace(text[..i]) && AllSpace(text[j..]);
    forall k | 0 <= k < |t|
      ensures t[k] != c
    {
      assert t[k] == text[i + k];
    }
  }

  /** The worked example: `prefix ```json\n[{"title":"T"}]\n``` suffix`. */
  lemma PrefixSuffixExample()
    ensures ExtractJsonText("prefix " + JsonBlock("\n[{\"title\":\"T\"}]\n") + " suffix") == "\n[{\"title\":\"T\"}]\n"
  {
    ProseAroundJsonBlock("prefix ", "\n[{\"title\":\"T\"}]\n", " suffix");
  }
}
