/**
  The two Markdown renderers of the recommendations page,
  `generate_markdown` and `convert_to_markdown`. Each takes the decoded
  recommendations document, writes a fixed header, then one block per item of
  its "recommendations" list, in list order. Missing fields take fixed
  defaults; a document of the wrong shape makes Python raise, which is an
  `Err` here.

  Both renderers build their output with a `for` loop and `+=`; `Blocks` is
  the same loop as a recursive function, and `AppendBlocks` the loop itself.
*/
module Markdown {
  import opened PyValues
  import PyStr

  ghost predicate EndsWith(s: string, p: string)
  {
    |p| <= |s| && s[|s| - |p|..] == p
  }

  lemma EndsWithAppend(s: string, p: string)
    ensures EndsWith(s + p, p)
  {
    assert (s + p)[|s|..] == p;
  }

  /** The concatenated blocks of `items`, the first one numbered `first`, or
      the error of the first item whose block fails. */
  function Blocks(items: seq<Json>, first: nat, block: (nat, Json) -> Result<string>): Result<string>
    decreases |items|
  {
    if items == [] then
      Ok("")
    else
      var b :- block(first, items[0]);
      var rest :- Blocks(items[1..], first + 1, block);
      Ok(b + rest)
  }

  /** A list renders exactly when every item's block does. */
  lemma {:induction false} BlocksOk(items: seq<Json>, first: nat, block: (nat, Json) -> Result<string>)
    ensures Blocks(items, first, block).Ok? <==> forall i :: 0 <= i < |items| ==> block(first + i, items[i]).Ok?
    decreases |items|
  {
    if items != [] {
      BlocksOk(items[1..], first + 1, block);
      assert forall i :: 1 <= i < |items| ==> block(first + i, items[i]) == block(first + 1 + (i - 1), items[1..][i - 1]);
    }
  }

  /** Rendering a list in two parts: the blocks of `xs` then those of `ys`,
      numbered on from where `xs` stopped; an error in `xs` wins. */
  lemma {:induction false} BlocksConcat(xs: seq<Json>, ys: seq<Json>, first: nat, block: (nat, Json) -> Result<string>)
    ensures Blocks(xs + ys, first, block) ==
      match Blocks(xs, first, block)
      case Err(e) => Err(e)
      case Ok(a) =>
        match Blocks(ys, first + |xs|, block)
        case Err(e) => Err(e)
        case Ok(b) => Ok(a + b)
    decreases |xs|
  {
    if xs == [] {
      assert xs + ys == ys;
      match Blocks(ys, first, block)
      case Err(_) =>
      case Ok(b) => assert "" + b == b;
    } else {
      assert (xs + ys)[0] == xs[0];
      assert (xs + ys)[1..] == xs[1..] + ys;
      BlocksConcat(xs[1..], ys, first + 1, block);
      var b := block(first, xs[0]);
      if b.Ok? {
        match Blocks(xs[1..], first + 1, block)
        case Err(e) =>
        case Ok(a) =>
          match Blocks(ys, first + |xs|, block)
          case Err(e) =>
          case Ok(c) =>
            assert b.value + (a + c) == (b.value + a) + c;
      }
    }
  }

  /** Item `i` of a rendered list: its block, numbered `first + i`, sits in
      the output right after the blocks of the items before it. */
  lemma BlockAt(items: seq<Json>, first: nat, block: (nat, Json) -> Result<string>, i: int)
    requires Blocks(items, first, block).Ok?
    requires 0 <= i < |items|
    ensures block(first + i, items[i]).Ok?
    ensures Blocks(items[..i], first, block).Ok?
    ensures PyStr.InfixAt(block(first + i, items[i]).value, Blocks(items, first, block).value,
                          |Blocks(items[..i], first, block).value|)
  {
    var pre := Blocks(items[..i], first, block);
    var tail := Blocks(items[i..], first + i, block);
    SplitAt(items, i);
    BlocksConcat(items[..i], items[i..], first, block);
    BlocksHead(items[i..], first + i, block);
    var b := block(first + i, items[i]).value;
    AppendInfix(pre.value, b, Blocks(items[i + 1..], first + i + 1, block).value);
  }

  lemma SplitAt(items: seq<Json>, i: int)
    requires 0 <= i < |items|
    ensures items == items[..i] + items[i..]
    ensures items[i..][0] == items[i] && items[i..][1..] == items[i + 1..]
  {
  }

  /** A list that renders starts with the block of its first item. */
  lemma BlocksHead(items: seq<Json>, first: nat, block: (nat, Json) -> Result<string>)
    requires items != [] && Blocks(items, first, block).Ok?
    ensures block(first, items[0]).Ok? && Blocks(items[1..], first + 1, block).Ok?
    ensures Blocks(items, first, block).value
         == block(first, items[0]).value + Blocks(items[1..], first + 1, block).value
  {
  }

  lemma AppendInfix(a: string, b: string, c: string)
    ensures PyStr.InfixAt(b, a + (b + c), |a|)
  {
    assert (a + (b + c))[|a|..|a| + |b|] == b;
  }

  /** The renderers' loop as the source writes it: start from the header and
      append one block per item; the first failing item stops the loop. */
  method AppendBlocks(header: string, items: seq<Json>, first: nat, block: (nat, Json) -> Result<string>)
    returns (r: Result<string>)
    ensures r.Ok? <==> Blocks(items, first, block).Ok?
    ensures r.Ok? ==> r.value == header + Blocks(items, first, block).value
    ensures r.Err? ==> r.error == Blocks(items, first, block).error
  {
    var out := header;
    var i := 0;
    assert items[..0] == [] && out[|header|..] == [];
    while i < |items|
      invariant 0 <= i <= |items|
      invariant |header| <= |out| && out[..|header|] == header
      invariant Blocks(items[..i], first, block) == Ok(out[|header|..])
    {
      var b := block(first + i, items[i]);
      BlocksStep(items, i, first, block);
      if b.Err? {
        return Err(b.error);
      }
      assert (out + b.value)[|header|..] == out[|header|..] + b.value;
      out := out + b.value;
      i := i + 1;
    }
    assert items[..i] == items;
    assert out == header + out[|header|..];
    r := Ok(out);
  }

  /** One pass of the loop: with the blocks of the first `i` items rendered,
      item `i` either adds its block or its error is the whole list's. */
  lemma BlocksStep(items: seq<Json>, i: int, first: nat, block: (nat, Json) -> Result<string>)
    requires 0 <= i < |items| && Blocks(items[..i], first, block).Ok?
    ensures block(first + i, items[i]).Ok? ==>
              Blocks(items[..i + 1], first, block)
              == Ok(Blocks(items[..i], first, block).value + block(first + i, items[i]).value)
    ensures block(first + i, items[i]).Err? ==>
              Blocks(items, first, block) == Err(block(first + i, items[i]).error)
  {
    assert items[..i + 1] == items[..i] + [items[i]];
    BlocksSnoc(items[..i], items[i], first, block);
    BlocksConcat(items[..i + 1], items[i + 1..], first, block);
    assert items[..i + 1] + items[i + 1..] == items;
  }

  /** One more item at the end of the list adds its block at the end. */
  lemma BlocksSnoc(xs: seq<Json>, x: Json, first: nat, block: (nat, Json) -> Result<string>)
    ensures Blocks(xs + [x], first, block) ==
      match Blocks(xs, first, block)
      case Err(e) => Err(e)
      case Ok(a) =>
        match block(first + |xs|, x)
        case Err(e) => Err(e)
        case Ok(b) => Ok(a + b)
  {
    BlocksConcat(xs, [x], first, block);
    assert [x][1..] == [];
    match block(first + |xs|, x)
    case Err(_) =>
    case Ok(b) => assert b + "" == b;
  }

  /** The skeleton both renderers share: `data.get("recommendations", [])`,
      then the header followed by one block per item. */
  function Render(header: string, data: Json, block: (nat, Json) -> Result<string>): (r: Result<string>)
    ensures r.Ok? ==> header <= r.value
    ensures !data.Obj? ==> r == Err(NoAttributeGet(TypeName(data)))
  {
    var recs :- Get(data, "recommendations", Arr([]));
    var items :- Iterate(recs);
    var body :- Blocks(items, 1, block);
    Ok(header + body)
  }

  /** With no recommendations, or an empty list of them, the output is the
      header alone. */
  lemma RenderEmpty(header: string, fields: map<string, Json>, block: (nat, Json) -> Result<string>)
    requires "recommendations" !in fields || fields["recommendations"] == Arr([])
    ensures Render(header, Obj(fields), block) == Ok(header)
  {
    assert header + "" == header;
  }

  /** A list of recommendations renders exactly when every item's block
      does. */
  lemma RenderList(header: string, fields: map<string, Json>, recs: seq<Json>, block: (nat, Json) -> Result<string>)
    requires "recommendations" in fields && fields["recommendations"] == Arr(recs)
    ensures Render(header, Obj(fields), block).Ok? <==> Blocks(recs, 1, block).Ok?
    ensures Render(header, Obj(fields), block).Ok? ==>
              Render(header, Obj(fields), block).value == header + Blocks(recs, 1, block).value
  {
  }

  /** One block per recommendation, in list order, numbered from 1: the
      `i`-th item (from 0) renders as block `i + 1`, right after the header
      and the blocks of the items before it. */
  lemma RenderItem(header: string, fields: map<string, Json>, recs: seq<Json>,
                   block: (nat, Json) -> Result<string>, i: int)
    requires "recommendations" in fields && fields["recommendations"] == Arr(recs)
    requires Render(header, Obj(fields), block).Ok?
    requires 0 <= i < |recs|
    ensures block(1 + i, recs[i]).Ok? && Blocks(recs[..i], 1, block).Ok?
    ensures PyStr.InfixAt(block(1 + i, recs[i]).value, Render(header, Obj(fields), block).value,
                          |header| + |Blocks(recs[..i], 1, block).value|)
  {
    RenderList(header, fields, recs, block);
    BlockAt(recs, 1, block, i);
    var body := Blocks(recs, 1, block).value;
    var before := Blocks(recs[..i], 1, block).value;
    var b := block(1 + i, recs[i]).value;
    assert (header + body)[|header| + |before|..|header| + |before| + |b|]
        == body[|before|..|before| + |b|];
  }

  /** Every item of `items` satisfies `p`. */
  ghost predicate All(items: seq<Json>, p: Json -> bool)
  {
    forall i :: 0 <= i < |items| ==> p(items[i])
  }

  // ---------------------------------------------------------------------
  // generate_markdown

  const VacationHeader: string := "# Vacation Recommendations\n\n"
  const Separator: string := "---\n\n"

  /** The first line of a `generate_markdown` block. */
  function NumberedHeading(idx: nat, title: string): string
  {
    "## " + PyStr.Decimal(idx) + ". " + title + "\n"
  }

  /** The text of a `generate_markdown` block, given its field texts. */
  function VacationText(idx: nat, title: string, description: string, tourPrice: string,
                        totalEstimate: string, link: string): (r: string)
    ensures NumberedHeading(idx, title) <= r
    ensures EndsWith(r, Separator)
  {
    var heading := NumberedHeading(idx, title);
    var details :=
      "**Description:**  \n" + description + "\n\n"
      + "**Cost:**  \n- Tour Price: " + tourPrice
      + "  \n- Total Estimate: " + totalEstimate + "  \n\n"
      + "**[Learn More](" + link + ")**\n\n";
    EndsWithAppend(heading + details, Separator);
    assert heading + details + Separator == heading + (details + Separator);
    heading + details + Separator
  }

  /** What `generate_markdown` needs of one recommendation: a dict whose
      "cost", if present, is a dict. */
  predicate VacationShaped(rec: Json)
  {
    rec.Obj? && Field(rec.fields, "cost", Obj(map[])).Obj?
  }

  /** One recommendation as `generate_markdown` writes it, numbered `idx`.
      The first `.get` on a non-dict raises, and so does the first `.get` on
      a "cost" that is not a dict. */
  function VacationBlock(idx: nat, rec: Json, show: Json -> string): (r: Result<string>)
    ensures r.Ok? <==> VacationShaped(rec)
    ensures !rec.Obj? ==> r == Err(NoAttributeGet(TypeName(rec)))
    ensures rec.Obj? && !r.Ok? ==> r == Err(NoAttributeGet(TypeName(rec.fields["cost"])))
    ensures r.Ok? ==> NumberedHeading(idx, Text(Field(rec.fields, "title", Str("No Title")), show)) <= r.value
    ensures r.Ok? ==> EndsWith(r.value, Separator)
  {
    match rec
    case Obj(m) =>
      var title := Field(m, "title", Str("No Title"));
      var description := Field(m, "description", Str("No Description"));
      var cost := Field(m, "cost", Obj(map[]));
      if !cost.Obj? then
        Err(NoAttributeGet(TypeName(cost)))
      else
        var tourPrice := Field(cost.fields, "tour_price", Str("N/A"));
        var totalEstimate := Field(cost.fields, "total_estimate", Str("N/A"));
        var link := Field(m, "link", Str("#"));
        Ok(VacationText(idx, Text(title, show), Text(description, show), Text(tourPrice, show),
                        Text(totalEstimate, show), Text(link, show)))
    case _ => Err(NoAttributeGet(TypeName(rec)))
  }

  /** A dict recommendation whose "cost" is a dict (or absent) renders each
      field's text, or its default when the key is absent: the title, the
      description, the cost's tour price and total estimate, and the link. */
  lemma VacationBlockOfDict(m: map<string, Json>, c: map<string, Json>, idx: nat, show: Json -> string)
    requires Field(m, "cost", Obj(map[])) == Obj(c)
    ensures VacationBlock(idx, Obj(m), show) == Ok(VacationText(idx,
      Text(Field(m, "title", Str("No Title")), show),
      Text(Field(m, "description", Str("No Description")), show),
      Text(Field(c, "tour_price", Str("N/A")), show),
      Text(Field(c, "total_estimate", Str("N/A")), show),
      Text(Field(m, "link", Str("#")), show)))
  {
  }

  /** A recommendation with none of its fields renders with every default. */
  lemma VacationBlockDefaults(idx: nat, show: Json -> string)
    ensures VacationBlock(idx, Obj(map[]), show) == Ok(VacationText(idx, "No Title", "No Description", "N/A", "N/A", "#"))
  {
  }

  function VacationBlocks(show: Json -> string): (nat, Json) -> Result<string>
  {
    (i: nat, rec: Json) => VacationBlock(i, rec, show)
  }

  lemma VacationBlocksAt(show: Json -> string, idx: nat, rec: Json)
    ensures VacationBlocks(show)(idx, rec) == VacationBlock(idx, rec, show)
  {
  }

  /** `generate_markdown(data)`, with `show` standing for Python's `str()` of a
      non-string field value. */
  function GenerateMarkdown(data: Json, show: Json -> string): (r: Result<string>)
    ensures r.Ok? ==> VacationHeader <= r.value
    ensures !data.Obj? ==> r == Err(NoAttributeGet(TypeName(data)))
  {
    Render(VacationHeader, data, VacationBlocks(show))
  }

  /** With no recommendations, or an empty list of them, the output is the
      header alone. */
  lemma GenerateMarkdownEmpty(fields: map<string, Json>, show: Json -> string)
    requires "recommendations" !in fields || fields["recommendations"] == Arr([])
    ensures GenerateMarkdown(Obj(fields), show) == Ok(VacationHeader)
  {
    RenderEmpty(VacationHeader, fields, VacationBlocks(show));
  }

  /** A list of recommendations renders exactly when every one of them is a
      dict with a dict (or absent) "cost". */
  lemma GenerateMarkdownRenders(fields: map<string, Json>, recs: seq<Json>, show: Json -> string)
    requires "recommendations" in fields && fields["recommendations"] == Arr(recs)
    ensures GenerateMarkdown(Obj(fields), show).Ok? <==> All(recs, VacationShaped)
  {
    var f := VacationBlocks(show);
    RenderList(VacationHeader, fields, recs, f);
    BlocksOk(recs, 1, f);
    forall i | 0 <= i < |recs|
      ensures f(1 + i, recs[i]).Ok? <==> VacationShaped(recs[i])
    {
      VacationBlocksAt(show, 1 + i, recs[i]);
    }
  }

  /** One block per recommendation, in list order, numbered from 1: the
      `i`-th recommendation (from 0) renders as block `1 + i`, and sits in the
      output right after the header and the blocks before it. (The block's
      first line, "## <number>. <title>", is `VacationBlock`'s own
      postcondition.) */
  lemma GenerateMarkdownItem(fields: map<string, Json>, recs: seq<Json>, show: Json -> string, i: int)
    requires "recommendations" in fields && fields["recommendations"] == Arr(recs)
    requires GenerateMarkdown(Obj(fields), show).Ok?
    requires 0 <= i < |recs|
    ensures VacationShaped(recs[i])
    ensures VacationBlock(1 + i, recs[i], show).Ok? && Blocks(recs[..i], 1, VacationBlocks(show)).Ok?
    ensures PyStr.InfixAt(VacationBlock(1 + i, recs[i], show).value, GenerateMarkdown(Obj(fields), show).value,
                          |VacationHeader| + |Blocks(recs[..i], 1, VacationBlocks(show)).value|)
  {
    VacationBlocksAt(show, 1 + i, recs[i]);
    RenderItem(VacationHeader, fields, recs, VacationBlocks(show), i);
  }

  // ---------------------------------------------------------------------
  // convert_to_markdown

  const RecommendationsHeader: string := "# Recommendations\n\n"
  const ClosingRule: string := "\n---\n\n"

  /** A key of `cost_details` that gets a line, and the text around its value. */
  datatype CostField = CostField(key: string, before: string, after: string)

  /** The cost lines `convert_to_markdown` knows, in the order it writes them;
      "notes" and "additional_notes" share one label. */
  const CostFields: seq<CostField> := [
    CostField("link", "- **More Details**: [Visit Website](", ")\n"),
    CostField("entry_fees", "- **Entry Fees**: ", "\n"),
    CostField("notes", "- **Notes**: ", "\n"),
    CostField("additional_notes", "- **Notes**: ", "\n")
  ]

  /** The line for `f`: `if f.key in cd: out += ...cd[f.key]...`. */
  function CostLine(cd: Json, f: CostField, show: Json -> string): Result<string>
  {
    var present :- Contains(cd, f.key);
    if present then
      var v :- Subscript(cd, f.key);
      Ok(f.before + Text(v, show) + f.after)
    else
      Ok("")
  }

  /** The cost lines for `fields`, in order. A dict never fails and only a
      dict can produce a line; `in` on None, a bool or an int raises. */
  function CostLines(cd: Json, fields: seq<CostField>, show: Json -> string): (r: Result<string>)
    ensures cd.Obj? ==> r.Ok?
    ensures r.Ok? && !cd.Obj? ==> r.value == ""
    ensures (cd.Null? || cd.Bool? || cd.Num?) && fields != [] ==> r == Err(NotContainer(TypeName(cd)))
    decreases |fields|
  {
    if fields == [] then
      Ok("")
    else
      var line :- CostLine(cd, fields[0], show);
      var rest :- CostLines(cd, fields[1..], show);
      Ok(line + rest)
  }

  /** The line a dict `m` gets for `f`: present keys only. */
  function LineIfPresent(m: map<string, Json>, f: CostField, show: Json -> string): string
  {
    if f.key in m then f.before + Text(m[f.key], show) + f.after else ""
  }

  /** The lines a dict `m` gets for `fields`, in order. */
  function PresentLines(m: map<string, Json>, fields: seq<CostField>, show: Json -> string): string
    decreases |fields|
  {
    if fields == [] then "" else LineIfPresent(m, fields[0], show) + PresentLines(m, fields[1..], show)
  }

  /** For a dict of cost details, one line per listed key that is present, in
      the listed order, and nothing for an absent key. */
  lemma {:induction false} CostLinesOfDict(m: map<string, Json>, fields: seq<CostField>, show: Json -> string)
    ensures CostLines(Obj(m), fields, show) == Ok(PresentLines(m, fields, show))
    decreases |fields|
  {
    if fields != [] {
      CostLinesOfDict(m, fields[1..], show);
    }
  }

  /** The four known keys in their fixed order: link, entry_fees, notes,
      additional_notes. */
  lemma PresentLinesOfFour(m: map<string, Json>, fs: seq<CostField>, show: Json -> string)
    requires |fs| == 4
    ensures PresentLines(m, fs, show)
         == LineIfPresent(m, fs[0], show) + LineIfPresent(m, fs[1], show)
          + LineIfPresent(m, fs[2], show) + LineIfPresent(m, fs[3], show)
  {
    var l0, l1, l2, l3 := LineIfPresent(m, fs[0], show), LineIfPresent(m, fs[1], show),
                          LineIfPresent(m, fs[2], show), LineIfPresent(m, fs[3], show);
    assert fs[3..][0] == fs[3] && fs[3..][1..] == [];
    assert PresentLines(m, fs[3..], show) == l3 + "" == l3;
    assert fs[2..][0] == fs[2] && fs[2..][1..] == fs[3..];
    assert PresentLines(m, fs[2..], show) == l2 + l3;
    assert fs[1..][0] == fs[1] && fs[1..][1..] == fs[2..];
    assert PresentLines(m, fs[1..], show) == l1 + (l2 + l3);
    assert PresentLines(m, fs, show) == l0 + (l1 + (l2 + l3));
    assert l0 + (l1 + (l2 + l3)) == l0 + l1 + l2 + l3;
  }

  /** The text of a `convert_to_markdown` block, given its field texts. */
  function RecommendationText(title: string, description: string, costLines: string): (r: string)
    ensures "## " + title + "\n\n" <= r
    ensures EndsWith(r, ClosingRule)
  {
    var heading := "## " + title + "\n\n";
    var rest := description + "\n\n" + costLines;
    EndsWithAppend(heading + rest, ClosingRule);
    assert heading + rest + ClosingRule == heading + (rest + ClosingRule);
    heading + rest + ClosingRule
  }

  /** One recommendation as `convert_to_markdown` writes it. */
  function RecommendationBlock(rec: Json, show: Json -> string): (r: Result<string>)
    ensures !rec.Obj? ==> r == Err(NoAttributeGet(TypeName(rec)))
    ensures rec.Obj? && Field(rec.fields, "cost_details", Obj(map[])).Obj? ==> r.Ok?
    ensures r.Ok? ==> "## " + Text(Field(rec.fields, "title", Str("Untitled")), show) + "\n\n" <= r.value
    ensures r.Ok? ==> EndsWith(r.value, ClosingRule)
  {
    match rec
    case Obj(m) =>
      var title := Field(m, "title", Str("Untitled"));
      var description := Field(m, "description", Str("No description available."));
      var costDetails := Field(m, "cost_details", Obj(map[]));
      var lines :- CostLines(costDetails, CostFields, show);
      Ok(RecommendationText(Text(title, show), Text(description, show), lines))
    case _ => Err(NoAttributeGet(TypeName(rec)))
  }

  /** A recommendation with a dict of cost details renders its title,
      description and the present cost lines in the fixed order. */
  lemma RecommendationBlockOfDict(m: map<string, Json>, cd: map<string, Json>, show: Json -> string)
    requires Field(m, "cost_details", Obj(map[])) == Obj(cd)
    ensures RecommendationBlock(Obj(m), show) == Ok(RecommendationText(
      Text(Field(m, "title", Str("Untitled")), show),
      Text(Field(m, "description", Str("No description available.")), show),
      LineIfPresent(cd, CostFields[0], show) + LineIfPresent(cd, CostFields[1], show)
      + LineIfPresent(cd, CostFields[2], show) + LineIfPresent(cd, CostFields[3], show)))
  {
    RecommendationBlockLines(m, cd, show);
    PresentLinesOfFour(cd, CostFields, show);
  }

  lemma RecommendationBlockLines(m: map<string, Json>, cd: map<string, Json>, show: Json -> string)
    requires Field(m, "cost_details", Obj(map[])) == Obj(cd)
    ensures RecommendationBlock(Obj(m), show) == Ok(RecommendationText(
      Text(Field(m, "title", Str("Untitled")), show),
      Text(Field(m, "description", Str("No description available.")), show),
      PresentLines(cd, CostFields, show)))
  {
    CostLinesOfDict(cd, CostFields, show);
  }

  /** A recommendation with none of its fields renders with every default. */
  lemma RecommendationBlockDefaults(show: Json -> string)
    ensures RecommendationBlock(Obj(map[]), show)
         == Ok(RecommendationText("Untitled", "No description available.", ""))
  {
    RecommendationBlockOfDict(map[], map[], show);
  }

  function RecommendationBlocks(show: Json -> string): (nat, Json) -> Result<string>
  {
    (_: nat, rec: Json) => RecommendationBlock(rec, show)
  }

  lemma RecommendationBlocksAt(show: Json -> string, idx: nat, rec: Json)
    ensures RecommendationBlocks(show)(idx, rec) == RecommendationBlock(rec, show)
  {
  }

  /** `convert_to_markdown(json_data)`, with `show` standing for Python's
      `str()` of a non-string field value. */
  function ConvertToMarkdown(data: Json, show: Json -> string): (r: Result<string>)
    ensures r.Ok? ==> RecommendationsHeader <= r.value
    ensures !data.Obj? ==> r == Err(NoAttributeGet(TypeName(data)))
  {
    Render(RecommendationsHeader, data, RecommendationBlocks(show))
  }

  /** With no recommendations, or an empty list of them, the output is the
      header alone. */
  lemma ConvertToMarkdownEmpty(fields: map<string, Json>, show: Json -> string)
    requires "recommendations" !in fields || fields["recommendations"] == Arr([])
    ensures ConvertToMarkdown(Obj(fields), show) == Ok(RecommendationsHeader)
  {
    RenderEmpty(RecommendationsHeader, fields, RecommendationBlocks(show));
  }

  /** What always renders under `convert_to_markdown`: a dict whose
      "cost_details", if present, is a dict. */
  predicate RecommendationShaped(rec: Json)
  {
    rec.Obj? && Field(rec.fields, "cost_details", Obj(map[])).Obj?
  }

  /** Exactly what renders under `convert_to_markdown`: a dict whose
      "cost_details" is a dict, or a str or list that holds none of the known
      keys (a key found in one is then subscripted with a str, which
      raises). */
  predicate RecommendationRenders(rec: Json)
  {
    rec.Obj? &&
    var cd := Field(rec.fields, "cost_details", Obj(map[]));
    cd.Obj? || ((cd.Str? || cd.Arr?) && forall j :: 0 <= j < |CostFields| ==> Contains(cd, CostFields[j].key) == Ok(false))
  }

  /** The cost lines render exactly when there are no keys to look for, the
      details are a dict, or they are a str or list holding none of the
      keys. */
  lemma {:induction false} CostLinesOk(cd: Json, fields: seq<CostField>, show: Json -> string)
    ensures CostLines(cd, fields, show).Ok? <==>
              fields == [] || cd.Obj?
              || ((cd.Str? || cd.Arr?) && forall j :: 0 <= j < |fields| ==> Contains(cd, fields[j].key) == Ok(false))
    decreases |fields|
  {
    if fields != [] {
      CostLinesOk(cd, fields[1..], show);
      assert forall j :: 0 <= j < |fields[1..]| ==> fields[1..][j] == fields[j + 1];
    }
  }

  lemma RecommendationBlockOk(rec: Json, show: Json -> string)
    ensures RecommendationBlock(rec, show).Ok? <==> RecommendationRenders(rec)
  {
    if rec.Obj? {
      CostLinesOk(Field(rec.fields, "cost_details", Obj(map[])), CostFields, show);
    }
  }

  /** A list of recommendations renders exactly when every one of them
      renders on its own. */
  lemma ConvertToMarkdownRenders(fields: map<string, Json>, recs: seq<Json>, show: Json -> string)
    requires "recommendations" in fields && fields["recommendations"] == Arr(recs)
    ensures ConvertToMarkdown(Obj(fields), show).Ok? <==> All(recs, RecommendationRenders)
  {
    var f := RecommendationBlocks(show);
    RenderList(RecommendationsHeader, fields, recs, f);
    BlocksOk(recs, 1, f);
    forall i | 0 <= i < |recs|
      ensures f(1 + i, recs[i]).Ok? <==> RecommendationRenders(recs[i])
    {
      RecommendationBlocksAt(show, 1 + i, recs[i]);
      RecommendationBlockOk(recs[i], show);
    }
  }

  /** In particular, a list of dicts whose cost details are dicts (or
      absent) always renders. */
  lemma ConvertToMarkdownShaped(fields: map<string, Json>, recs: seq<Json>, show: Json -> string)
    requires "recommendations" in fields && fields["recommendations"] == Arr(recs)
    requires All(recs, RecommendationShaped)
    ensures ConvertToMarkdown(Obj(fields), show).Ok?
  {
    var f := RecommendationBlocks(show);
    forall j | 0 <= j < |recs|
      ensures f(1 + j, recs[j]).Ok?
    {
      RecommendationBlocksAt(show, 1 + j, recs[j]);
    }
    BlocksOk(recs, 1, f);
    RenderList(RecommendationsHeader, fields, recs, f);
  }

  /** One block per recommendation, in list order: in a rendered output, the
      `i`-th block sits right after the header and the blocks before it.
      (The block's first line, "## <title>", is `RecommendationBlock`'s own
      postcondition.) */
  lemma ConvertToMarkdownItem(fields: map<string, Json>, recs: seq<Json>, show: Json -> string, i: int)
    requires "recommendations" in fields && fields["recommendations"] == Arr(recs)
    requires ConvertToMarkdown(Obj(fields), show).Ok?
    requires 0 <= i < |recs|
    ensures RecommendationRenders(recs[i])
    ensures RecommendationBlock(recs[i], show).Ok? && Blocks(recs[..i], 1, RecommendationBlocks(show)).Ok?
    ensures PyStr.InfixAt(RecommendationBlock(recs[i], show).value, ConvertToMarkdown(Obj(fields), show).value,
                          |RecommendationsHeader| + |Blocks(recs[..i], 1, RecommendationBlocks(show)).value|)
  {
    RecommendationBlocksAt(show, 1 + i, recs[i]);
    RenderItem(RecommendationsHeader, fields, recs, RecommendationBlocks(show), i);
    RecommendationBlockOk(recs[i], show);
  }
}
