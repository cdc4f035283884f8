/**
  `clean_json_string`: the step that turns agent text such as
  "```json\n{...}\n```" into bare JSON text before it is decoded.

  The source does it with one chain of Python strips,
  `s.strip("`").lstrip("json").strip("`").strip()`, and every one of them
  takes a SET of characters: `lstrip("json")` drops any leading run of the
  letters j, s, o and n, not the word "json". `CleanJsonString` models that
  chain exactly; `CleanFence` is the literal-fence stripper the function's
  documentation describes, which the findings compare it against.
*/
module CleanJson {
  import opened PyStr

  const Backtick: set<char> := {'`'}

  /** The characters of the argument of `lstrip("json")`. */
  const JsonTag: set<char> := {'j', 's', 'o', 'n'}

  /** A character either of the first two strips of the chain would eat. */
  const FenceChars: set<char> := Backtick + JsonTag

  const Fence: string := "```"
  const JsonFence: string := "```json"

  /** `s.strip("`").lstrip("json").strip("`").strip()` */
  function CleanJsonString(s: string): (r: string)
    ensures |r| <= |s|
    ensures EndsOutside(r, Whitespace)
  {
    StripWs(Strip(StripLeft(Strip(s, Backtick), JsonTag), Backtick))
  }

  /** The cleaned text is a contiguous piece of the input: cleaning only
      ever cuts characters off the two ends. */
  lemma CleanJsonStringInfix(s: string)
    ensures IsInfix(CleanJsonString(s), s)
  {
    var a := Strip(s, Backtick);
    var b := StripLeft(a, JsonTag);
    var c := Strip(b, Backtick);
    var i := StripTrims(s, Backtick);
    var j := StripLeftInfix(a, JsonTag);
    var k := StripTrims(b, Backtick);
    var l := StripTrims(c, Whitespace);
    InfixChain(s, a, b, c, StripWs(c), i, j, k, l);
  }

  /** The whole chain on a string made of backticks `f1`, then tag letters
      `w`, then a text `t` that starts with neither and does not end with a
      backtick, then backticks `f2`: all four strips together leave exactly
      the whitespace-trimmed `t`. */
  lemma {:induction false} CleanLayers(f1: string, w: string, t: string, f2: string)
    requires AllIn(f1, Backtick) && AllIn(f2, Backtick)
    requires AllIn(w, JsonTag)
    requires t == [] || (t[0] !in FenceChars && t[|t| - 1] != '`')
    ensures CleanJsonString(f1 + w + t + f2) == StripWs(t)
  {
    var s := f1 + w + t + f2;
    var m := w + t;
    if m == [] {
      assert s == f1 + f2;
      assert AllIn(s, Backtick);
      StripLeftAll(s, Backtick);
      StripLeftAll([], JsonTag);
      StripLeftAll([], Backtick);
      assert CleanJsonString(s) == StripWs(Strip(StripLeft(Strip(s, Backtick), JsonTag), Backtick));
      assert t == [];
    } else {
      TicksAround(f1, w, t, f2);
      StripLeftPrefix(w, t, JsonTag);
      StripNoop(t, Backtick);
      assert CleanJsonString(s) == StripWs(Strip(StripLeft(Strip(s, Backtick), JsonTag), Backtick));
    }
  }

  /** The first strip of the chain removes exactly the outer backticks. */
  lemma TicksAround(f1: string, w: string, t: string, f2: string)
    requires AllIn(f1, Backtick) && AllIn(f2, Backtick)
    requires AllIn(w, JsonTag)
    requires t == [] || (t[0] !in FenceChars && t[|t| - 1] != '`')
    requires w + t != []
    ensures Strip(f1 + w + t + f2, Backtick) == w + t
  {
    var m := w + t;
    assert m[0] !in Backtick && m[|m| - 1] !in Backtick by {
      if w != [] {
        assert m[0] == w[0];
      }
      if t == [] {
        assert m[|m| - 1] == w[|w| - 1];
      }
    }
    assert f1 + w + t + f2 == f1 + (m + f2);
    StripLeftPrefix(f1, m + f2, Backtick);
    StripRightSuffix(m, f2, Backtick);
  }

  /** The documented case: "```json" + body + "```" cleans to the trimmed
      body, provided the body's first character is not one the first two
      strips would eat and its last is not a backtick. */
  lemma FencedInput(body: string)
    requires body != [] && body[0] !in FenceChars && body[|body| - 1] != '`'
    ensures CleanJsonString("```json" + body + "```") == StripWs(body)
  {
    assert "```json" + body + "```" == "```" + "json" + body + "```";
    CleanLayers("```", "json", body, "```");
  }

  /** Without a fence the chain only trims whitespace, as long as the text
      starts with no backtick or tag letter and ends with no backtick. */
  lemma UnfencedInput(s: string)
    requires s == [] || (s[0] !in FenceChars && s[|s| - 1] != '`')
    ensures CleanJsonString(s) == StripWs(s)
  {
    assert s == [] + [] + s + [];
    CleanLayers([], [], s, []);
  }

  /** `lstrip("json")` drops every leading j, s, o and n, in any order and
      number, not only the word "json". */
  lemma TagLettersDropped(w: string, t: string)
    requires AllIn(w, JsonTag)
    requires t == [] || (t[0] !in FenceChars && t[|t| - 1] != '`')
    ensures CleanJsonString(w + t) == StripWs(t)
  {
    assert w + t == [] + w + t + [];
    CleanLayers([], w, t, []);
  }

  /** The JSON document `null` loses its first letter. */
  lemma NullLosesLeadingN()
    ensures CleanJsonString("null") == "ull"
  {
    StripNoop("ull", Whitespace);
    assert AllIn("n", JsonTag);
    assert "null" == "n" + "ull";
    TagLettersDropped("n", "ull");
  }

  /** Whitespace before the opening fence shields it: the first strip sees
      whitespace, so the fence and its tag survive the cleaning and only the
      closing fence goes. */
  lemma LeadingWhitespaceKeepsFence(ws: string, body: string)
    requires ws != [] && AllIn(ws, Whitespace)
    requires body == [] || body[|body| - 1] != '`'
    ensures CleanJsonString(ws + JsonFence + body + Fence) == StripWs(JsonFence + body)
  {
    var x := JsonFence + body;
    assert x[0] == '`';
    assert x[|x| - 1] != '`' by {
      if body == [] {
        assert x[|x| - 1] == 'n';
      } else {
        assert x[|x| - 1] == body[|body| - 1];
      }
    }
    FenceIsTicks();
    assert ws + JsonFence + body + Fence == ws + x + Fence;
    ShieldedByWhitespace(ws, x, Fence);
  }

  /** The chain on whitespace, then a text that starts with a backtick but
      does not end with one, then backticks: only the trailing backticks and
      the whitespace go. */
  lemma ShieldedByWhitespace(ws: string, x: string, f: string)
    requires ws != [] && AllIn(ws, Whitespace)
    requires x != [] && x[0] == '`' && x[|x| - 1] != '`'
    requires AllIn(f, Backtick)
    ensures CleanJsonString(ws + x + f) == StripWs(x)
  {
    var m := ws + x;
    assert m[0] == ws[0] && m[|m| - 1] == x[|x| - 1];
    SpaceFirstKeepsText(m, f);
    assert !IsSpace('`');
    StripSkipsMargin(ws, x, Whitespace);
  }

  /** A text that starts with whitespace and does not end with a backtick,
      followed by backticks: the chain removes the backticks and trims. */
  lemma SpaceFirstKeepsText(m: string, f: string)
    requires m != [] && IsSpace(m[0]) && m[|m| - 1] != '`'
    requires AllIn(f, Backtick)
    ensures CleanJsonString(m + f) == StripWs(m)
  {
    assert m[0] != '`' && m[0] !in JsonTag;
    StripTicksKeepsInner(m, f);
    StripLeftNoop(m, JsonTag);
    StripNoop(m, Backtick);
    assert CleanJsonString(m + f) == StripWs(Strip(StripLeft(Strip(m + f, Backtick), JsonTag), Backtick));
  }

  /** `strip("`")` on a text that neither starts nor ends with a backtick,
      followed by a closing fence, removes exactly the fence. */
  lemma StripTicksKeepsInner(m: string, f: string)
    requires m != [] && m[0] != '`' && m[|m| - 1] != '`'
    requires AllIn(f, Backtick)
    ensures Strip(m + f, Backtick) == m
  {
    StripLeftNoop(m + f, Backtick);
    StripRightSuffix(m, f, Backtick);
  }

  lemma FenceIsTicks()
    ensures AllIn(Fence, Backtick)
    ensures JsonFence == Fence + "json"
  {
  }

  /** The instance of the finding: a space before the fence leaves the
      opening fence and its tag in the "cleaned" text. */
  lemma LeadingSpaceKeepsFence()
    ensures CleanJsonString(" ```json\n{}\n```") == "```json\n{}"
  {
    var kept := "```json\n{}";
    assert JsonFence + "\n{}\n" == "" + kept + "\n";
    StripMargins("", kept, "\n", Whitespace);
    assert " ```json\n{}\n```" == " " + JsonFence + "\n{}\n" + Fence;
    LeadingWhitespaceKeepsFence(" ", "\n{}\n");
  }


  /** Removes a leading "```json", or else a leading "```", as literal text. */
  function DropOpening(t: string): string
  {
    if JsonFence <= t then t[|JsonFence|..] else if Fence <= t then t[|Fence|..] else t
  }

  /** Removes a trailing "```" as literal text. */
  function DropClosing(u: string): string
  {
    if |Fence| <= |u| && u[|u| - |Fence|..] == Fence then u[..|u| - |Fence|] else u
  }

  /** The fence stripper the documentation promises: trim whitespace, remove
      a leading "```json" or "```" and a trailing "```" as literal text, and
      trim again. */
  function CleanFence(s: string): (r: string)
    ensures |r| <= |s|
    ensures EndsOutside(r, Whitespace)
  {
    StripWs(DropClosing(DropOpening(StripWs(s))))
  }

  lemma DropOpeningJson(x: string)
    ensures DropOpening(JsonFence + x) == x
  {
    assert (JsonFence + x)[|JsonFence|..] == x;
  }

  lemma DropClosingFence(x: string)
    ensures DropClosing(x + Fence) == x
  {
    assert (x + Fence)[|x|..] == Fence;
    assert (x + Fence)[..|x|] == x;
  }

  /** `CleanFence` step by step. */
  lemma CleanFenceSteps(s: string, t: string, u: string, v: string)
    requires StripWs(s) == t && DropOpening(t) == u && DropClosing(u) == v
    ensures CleanFence(s) == StripWs(v)
  {
  }

  lemma FencedEnds(body: string)
    ensures EndsOutside(JsonFence + body + Fence, Whitespace)
  {
    var fenced := JsonFence + body + Fence;
    assert fenced[0] == '`' && fenced[|fenced| - 1] == '`';
  }

  /** Any body inside a "```json" fence, with any whitespace around the
      fence, comes out as the trimmed body, whatever letter it starts with. */
  lemma CleanFenceFenced(ws1: string, body: string, ws2: string)
    requires AllIn(ws1, Whitespace) && AllIn(ws2, Whitespace)
    ensures CleanFence(ws1 + JsonFence + body + Fence + ws2) == StripWs(body)
  {
    var s := ws1 + JsonFence + body + Fence + ws2;
    TrimToFence(ws1, body, ws2);
    DropFences(body);
    CleanFenceSteps(s, JsonFence + body + Fence, body + Fence, body);
  }

  lemma TrimToFence(ws1: string, body: string, ws2: string)
    requires AllIn(ws1, Whitespace) && AllIn(ws2, Whitespace)
    ensures StripWs(ws1 + JsonFence + body + Fence + ws2) == JsonFence + body + Fence
  {
    var fenced := JsonFence + body + Fence;
    assert ws1 + JsonFence + body + Fence + ws2 == ws1 + fenced + ws2;
    FencedEnds(body);
    StripMargins(ws1, fenced, ws2, Whitespace);
  }

  lemma DropFences(body: string)
    ensures DropOpening(JsonFence + body + Fence) == body + Fence
    ensures DropClosing(body + Fence) == body
  {
    assert JsonFence + body + Fence == JsonFence + (body + Fence);
    DropOpeningJson(body + Fence);
    DropClosingFence(body);
  }

  /** Text with no fence at either end is only trimmed: `null` stays `null`. */
  lemma CleanFenceUnfenced(s: string)
    requires !(Fence <= StripWs(s))
    requires var t := StripWs(s); !(|Fence| <= |t| && t[|t| - |Fence|..] == Fence)
    ensures CleanFence(s) == StripWs(s)
  {
    var t := StripWs(s);
    assert JsonFence == Fence + "json";
    assert DropOpening(t) == t;
    assert DropClosing(t) == t;
    StripIdempotent(s, Whitespace);
    assert StripWs(t) == t;
    assert CleanFence(s) == StripWs(DropClosing(DropOpening(t)));
  }

  /** The first finding, corrected: the document `null` stays `null`. */
  lemma CleanFenceKeepsNull()
    ensures CleanFence("null") == "null"
  {
    StripNoop("null", Whitespace);
    CleanFenceUnfenced("null");
  }

  /** The second finding, corrected: a space before the fence no longer
      matters. */
  lemma CleanFenceIgnoresLeadingSpace()
    ensures CleanFence(" ```json\n{}\n```") == "{}"
  {
    var b := "\n{}\n";
    assert " ```json\n{}\n```" == " " + JsonFence + b + Fence + "";
    assert b == "\n" + "{}" + "\n";
    StripMargins("\n", "{}", "\n", Whitespace);
    CleanFenceFenced(" ", b, "");
  }
}
