/** Writing a document down and reading it back, and what the parser can ever store. */
module TomlRoundTrip {
  import opened Options
  import opened TomlText
  import opened TomlParser

  datatype Style = Bare | Single | Double

  /** One written line, with every freedom of layout the parser allows. */
  datatype Item =
    | Blanks(gap: string)
    | Remark(gap: string, text: string)
    | Header(before: string, gap: string, name: string, gap': string, after: string)
    | Binding(before: string, key: string, gap: string, gap': string, style: Style, value: string,
              after: string, remark: Option<string>)

  function Dress(style: Style, v: string): string {
    match style
    case Bare => v
    case Single => "'" + v + "'"
    case Double => "\"" + v + "\""
  }

  function Tail(remark: Option<string>): string {
    match remark
    case None => ""
    case Some(text) => ['#'] + text
  }

  function Show(item: Item): string {
    match item
    case Blanks(gap) => gap
    case Remark(gap, text) => gap + (['#'] + text)
    case Header(before, gap, name, gap', after) => before + (['['] + ((gap + name + gap') + [']'] + after))
    case Binding(before, key, gap, gap', style, value, after, remark) =>
      before + (key + gap + ['='] + (gap' + Dress(style, value) + after + Tail(remark)))
  }

  function ShowAll(doc: seq<Item>): (lines: seq<string>)
    ensures |lines| == |doc|
  {
    if doc == [] then [] else [Show(doc[0])] + ShowAll(doc[1..])
  }

  predicate GoodSection(name: string) {
    Trimmed(name) && ']' !in name
  }

  predicate GoodKey(key: string) {
    Trimmed(key) && '=' !in key && '[' !in key && (key == "" || key[0] != '#')
  }

  predicate GoodValue(value: string) {
    '[' !in value && '#' !in value
  }

  predicate WellWritten(item: Item) {
    match item
    case Blanks(gap) => AllBlank(gap)
    case Remark(gap, _) => AllBlank(gap)
    case Header(before, gap, name, gap', _) =>
      AllBlank(before) && AllBlank(gap) && AllBlank(gap') && GoodSection(name)
    case Binding(before, key, gap, gap', style, value, after, remark) =>
      && AllBlank(before) && AllBlank(gap) && AllBlank(gap') && AllBlank(after)
      && GoodKey(key) && GoodValue(value)
      && (style == Bare ==> Trimmed(value) && !Quoted(value))
      && (remark.Some? ==> '[' !in remark.value)
  }

  function Meaning(item: Item): Line {
    match item
    case Blanks(_) => Noise
    case Remark(_, _) => Noise
    case Header(_, _, name, _, _) => Section(name)
    case Binding(_, key, _, _, _, value, _, _) => Assign(key, value)
  }

  // ------------------------------------------------------------------------ one line

  lemma TrimFrom(before: string, c: char, rest: string)
    requires AllBlank(before) && !Blank(c)
    ensures Trim(before + ([c] + rest)) == [c] + TrimRight(rest)
  {
    TrimLeftUndoes(before, [c] + rest);
    TrimRightAfter("", c, rest);
    assert "" + [c] + rest == [c] + rest && "" + [c] + TrimRight(rest) == [c] + TrimRight(rest);
  }

  lemma BlankLine(gap: string)
    requires AllBlank(gap)
    ensures Classify(gap) == Noise
  {
    TrimLeftUndoes(gap, "");
    assert gap + "" == gap;
  }

  lemma RemarkLine(gap: string, text: string)
    requires AllBlank(gap)
    ensures Classify(gap + (['#'] + text)) == Noise
  {
    TrimFrom(gap, '#', text);
  }

  lemma HeaderLine(before: string, gap: string, name: string, gap': string, after: string)
    requires AllBlank(before) && AllBlank(gap) && AllBlank(gap') && GoodSection(name)
    ensures Classify(before + (['['] + ((gap + name + gap') + [']'] + after))) == Section(name)
  {
    hide TrimLeft, TrimRight, IndexOf;
    var mid := gap + name + gap';
    var line := ['['] + (mid + [']'] + TrimRight(after));
    TrimFrom(before, '[', mid + [']'] + after);
    TrimRightAfter(mid, ']', after);
    assert line == "" + ['['] + (mid + [']'] + TrimRight(after));
    IndexAfter("", '[', mid + [']'] + TrimRight(after));
    assert ']' !in mid;
    IndexAfter(mid, ']', TrimRight(after));
    assert line[1..] == mid + [']'] + TrimRight(after);
    assert line[1..][..|mid|] == mid;
    TrimPadded(gap, name, gap');
  }

  /** What is left of "key gap" once the blanks around an empty key are gone. */
  function KeyPart(key: string, gap: string): string {
    if key == "" then "" else key + gap
  }

  lemma TrimKeyPart(key: string, gap: string)
    requires AllBlank(gap) && Trimmed(key)
    ensures Trim(KeyPart(key, gap)) == key && TrimLeft(TrimRight(KeyPart(key, gap))) == key
  {
    hide TrimLeft, TrimRight;
    var g := if key == "" then "" else gap;
    assert KeyPart(key, gap) == "" + key + g;
    TrimPadded("", key, g);
  }

  lemma KeyPartLacks(key: string, gap: string, c: char)
    requires AllBlank(gap) && c !in key && !Blank(c)
    ensures c !in gap && c !in KeyPart(key, gap)
  {
  }

  /** Trimming stops at the key on the left and never reaches c on the right. */
  lemma TrimAround(before: string, key: string, gap: string, c: char, rest: string)
    requires AllBlank(before) && AllBlank(gap) && Trimmed(key) && !Blank(c)
    ensures Trim(before + (key + gap + [c] + rest)) == KeyPart(key, gap) + [c] + TrimRight(rest)
  {
    hide TrimLeft, TrimRight;
    var left := KeyPart(key, gap);
    if key == "" {
      assert before + (key + gap + [c] + rest) == (before + gap) + (left + [c] + rest);
      TrimLeftUndoes(before + gap, left + [c] + rest);
    } else {
      TrimLeftUndoes(before, left + [c] + rest);
    }
    TrimRightAfter(left, c, rest);
  }

  lemma PlainValue(gap: string, v: string, after: string)
    requires AllBlank(gap) && AllBlank(after) && Trimmed(v)
    ensures Trim(TrimRight(gap + v + after)) == v
  {
    hide TrimLeft, TrimRight;
    if v == "" {
      assert gap + v + after == "" + (gap + after);
      TrimRightUndoes("", gap + after);
      assert "" + "" + "" == "";
      TrimPadded("", "", "");
    } else {
      TrimRightUndoes(gap + v, after);
      assert gap + v + "" == gap + v;
      TrimPadded(gap, v, "");
    }
  }

  lemma RemarkedValue(gap: string, v: string, after: string, text: string)
    requires AllBlank(gap) && AllBlank(after) && Trimmed(v) && '#' !in v
    ensures Uncomment(Trim(TrimRight(gap + v + after + (['#'] + text)))) == v
  {
    hide TrimLeft, TrimRight, IndexOf, Trimmed, AllBlank, KeyPart, Trim;
    var text' := TrimRight(text);
    var mid := KeyPart(v, after);
    assert gap + v + after + (['#'] + text) == (gap + v + after) + ['#'] + text;
    TrimRightAfter(gap + v + after, '#', text);
    assert (gap + v + after) + ['#'] + text' == gap + (v + after + ['#'] + text');
    TrimAround(gap, v, after, '#', text');
    KeyPartLacks(v, after, '#');
    IndexAfter(mid, '#', TrimRight(text'));
    assert (mid + ['#'] + TrimRight(text'))[..|mid|] == mid;
    TrimKeyPart(v, after);
  }

  /** The text after '=' gives back the value as it was dressed, whatever blanks and comment follow. */
  lemma ValuePart(gap: string, v: string, after: string, remark: Option<string>)
    requires AllBlank(gap) && AllBlank(after) && Trimmed(v) && '#' !in v
    ensures Uncomment(Trim(TrimRight(gap + v + after + Tail(remark)))) == v
  {
    hide TrimLeft, TrimRight, IndexOf, Trim, Trimmed, AllBlank;
    match remark
    case None =>
      assert gap + v + after + "" == gap + v + after;
      PlainValue(gap, v, after);
    case Some(text) =>
      RemarkedValue(gap, v, after, text);
  }

  lemma DressRoundTrip(style: Style, v: string)
    requires GoodValue(v) && (style == Bare ==> Trimmed(v) && !Quoted(v))
    ensures Trimmed(Dress(style, v)) && GoodValue(Dress(style, v)) && Unquote(Dress(style, v)) == v
  {
  }

  /** A trimmed line cut at its first '='. */
  lemma AssignLine(raw: string, left: string, right: string)
    requires Trim(raw) == left + ['='] + right
    requires '=' !in left && '[' !in left && '[' !in right && (left == "" || left[0] != '#')
    ensures Classify(raw) == Assign(Trim(left), Unquote(Uncomment(Trim(right))))
  {
    hide TrimLeft, TrimRight, IndexOf, Trim, Unquote, Uncomment, Trimmed;
    var line := left + ['='] + right;
    IndexAfter(left, '=', right);
    assert line[..|left|] == left && line[|left| + 1..] == right;
    assert line != "" && line[0] != '#' && '[' !in line;
  }

  lemma BindingLine(item: Item)
    requires item.Binding? && WellWritten(item)
    ensures Classify(Show(item)) == Assign(item.key, item.value)
  {
    hide TrimLeft, TrimRight, IndexOf, Uncomment, Dress, Unquote, Classify, Trim, Trimmed, AllBlank, KeyPart;
    var dressed := Dress(item.style, item.value);
    var rest := item.gap' + dressed + item.after + Tail(item.remark);
    DressRoundTrip(item.style, item.value);
    TrimAround(item.before, item.key, item.gap, '=', rest);
    KeyPartLacks(item.key, item.gap, '=');
    KeyPartLacks(item.key, item.gap, '[');
    KeyPartLacks("", item.gap', '[');
    KeyPartLacks("", item.after, '[');
    assert '[' !in Tail(item.remark);
    TrimKeeps(rest, '[');
    KeyPartStart(item.key, item.gap);
    AssignLine(Show(item), KeyPart(item.key, item.gap), TrimRight(rest));
    TrimKeyPart(item.key, item.gap);
    ValuePart(item.gap', dressed, item.after, item.remark);
  }

  lemma KeyPartStart(key: string, gap: string)
    ensures KeyPart(key, gap) == "" || (key != "" && KeyPart(key, gap)[0] == key[0])
  {
  }

  /** However it is laid out, a well-written line reads as what it says. */
  lemma ShownLineReads(item: Item)
    requires WellWritten(item)
    ensures Classify(Show(item)) == Meaning(item)
  {
    hide Classify;
    match item
    case Blanks(gap) => BlankLine(gap);
    case Remark(gap, text) => RemarkLine(gap, text);
    case Header(before, gap, name, gap', after) => HeaderLine(before, gap, name, gap', after);
    case Binding(_, _, _, _, _, _, _, _) => BindingLine(item);
  }
}
