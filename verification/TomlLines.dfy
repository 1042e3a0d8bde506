/** What every possible line means, told from its raw characters. */
module TomlLines {
  import opened Options
  import opened TomlText
  import opened TomlParser
  import opened TomlRoundTrip
  import opened TomlDocuments

  /** Not blank, and the first character that is not blank does not start a comment. */
  predicate Content(raw: string) {
    TrimLeft(raw) != "" && TrimLeft(raw)[0] != '#'
  }

  /** The four kinds of line. */
  lemma KindOfLine(raw: string)
    ensures Classify(raw) == Noise <==> !Content(raw)
    ensures Classify(raw).Section? <==> Content(raw) && '[' in raw
    ensures Classify(raw).Assign? <==> Content(raw) && '[' !in raw && '=' in raw
    ensures Classify(raw) == Malformed <==> Content(raw) && '[' !in raw && '=' !in raw
  {
    hide TrimLeft, TrimRight, IndexOf, Uncomment, Unquote, SectionIn;
    TrimKeeps(raw, '[');
    TrimKeeps(raw, '=');
    TrimRightKeepsFirst(TrimLeft(raw));
    if TrimLeft(raw) != "" {
      TrimNonBlank(raw);
    }
  }

  /** Of the one-character lines, space, tab, carriage return, newline and '#' are ignored, and no other. */
  lemma SingleCharacter(c: char)
    ensures Classify([c]) == Noise <==> c == ' ' || c == '\t' || c == '\r' || c == '\n' || c == '#'
  {
    KindOfLine([c]);
    hide Classify;
    assert Blank(c) ==> [c][1..] == "";
  }

  /** A line means what it means when trimmed. */
  lemma SameTrimmed(a: string, b: string)
    requires Trim(a) == Trim(b)
    ensures Classify(a) == Classify(b)
  {
    hide Trim, IndexOf, SectionIn, Uncomment, Unquote;
  }

  lemma TrimBlankEnds(c: char, raw: string)
    requires Blank(c)
    ensures Trim([c] + raw) == Trim(raw) && Trim(raw + [c]) == Trim(raw)
  {
    hide TrimLeft, TrimRight;
    var pre := TrimLeftCuts(raw);
    var post := TrimRightCuts(TrimLeft(raw));
    var t := Trim(raw);
    assert raw == pre + t + post;
    hide Trim;
    TrimPadded([c] + pre, t, post);
    TrimPadded(pre, t, post + [c]);
    assert [c] + raw == ([c] + pre) + t + post;
    assert raw + [c] == pre + t + (post + [c]);
  }

  /** A space, tab, carriage return or newline at either end of a line makes no difference. */
  lemma BlankEnds(c: char, raw: string)
    requires c == ' ' || c == '\t' || c == '\r' || c == '\n'
    ensures Classify([c] + raw) == Classify(raw) && Classify(raw + [c]) == Classify(raw)
  {
    hide Classify, Trim;
    TrimBlankEnds(c, raw);
    SameTrimmed([c] + raw, raw);
    SameTrimmed(raw + [c], raw);
  }

  lemma {:induction false} TrimLeftBefore(a: string, c: char, b: string)
    requires !Blank(c)
    ensures TrimLeft(a + [c] + b) == TrimLeft(a) + [c] + b
  {
    hide TrimLeft;
    var pre := TrimLeftCuts(a);
    var rest := TrimLeft(a) + [c] + b;
    assert a + [c] + b == pre + rest;
    TrimLeftUndoes(pre, rest);
  }

  /** Blanks around a non-blank are cut on either side of it. */
  lemma TrimAcross(a: string, c: char, b: string)
    requires !Blank(c)
    ensures Trim(a + [c] + b) == TrimLeft(a) + [c] + TrimRight(b)
  {
    hide TrimLeft, TrimRight;
    TrimLeftBefore(a, c, b);
    TrimRightAfter(TrimLeft(a), c, b);
  }

  /** Cutting one side first changes nothing. */
  lemma TrimAgain(s: string)
    ensures Trim(TrimRight(s)) == Trim(s) && Trim(TrimLeft(s)) == Trim(s)
  {
    hide TrimLeft, TrimRight;
    var pre := TrimLeftCuts(s);
    var post := TrimRightCuts(TrimLeft(s));
    assert s == pre + Trim(s) + post;
    PlainValue(pre, Trim(s), post);
    TrimLeftUndoes("", TrimLeft(s));
    assert "" + TrimLeft(s) == TrimLeft(s);
  }

  /** A line with a '[' anywhere names the section between the first '[' and the next ']'. */
  lemma SectionName(before: string, mid: string, after: string)
    requires '[' !in before && ']' !in mid
    requires Content(before + ['['] + (mid + [']'] + after))
    ensures Classify(before + ['['] + (mid + [']'] + after)) == Section(Trim(mid))
  {
    var raw := before + ['['] + (mid + [']'] + after);
    var left, rest := TrimLeft(before), mid + [']'] + TrimRight(after);
    TrimAcross(before, '[', mid + [']'] + after);
    TrimRightAfter(mid, ']', after);
    IndexAfter(mid, ']', TrimRight(after));
    assert rest[..|mid|] == mid;
    BracketLine(raw, before, rest);
  }

  /** Without a ']' the section name goes on to the end of the line. */
  lemma OpenSectionName(before: string, mid: string)
    requires '[' !in before && ']' !in mid
    requires Content(before + ['['] + mid)
    ensures Classify(before + ['['] + mid) == Section(Trim(mid))
  {
    var rest := TrimRight(mid);
    TrimAcross(before, '[', mid);
    TrimKeeps(mid, ']');
    assert rest[..|rest|] == rest;
    TrimAgain(mid);
    BracketLine(before + ['['] + mid, before, rest);
  }

  lemma BracketLine(raw: string, before: string, rest: string)
    requires '[' !in before && Content(raw) && '[' in raw && Trim(raw) == TrimLeft(before) + ['['] + rest
    ensures Classify(raw) == Section(Trim(rest[..IndexOf(rest, ']')]))
  {
    var left, line := TrimLeft(before), Trim(raw);
    KindOfLine(raw);
    TrimKeeps(before, '[');
    hide TrimLeft, TrimRight, IndexOf, Trim, Trimmed, Content, Uncomment, Unquote;
    IndexAfter(left, '[', rest);
    assert line[|left| + 1..] == rest;
    assert '[' in line;
  }

  /**
   * A line with a '=' and no '[' assigns: the key is the trimmed text before the first '=',
   * the value the trimmed text after it, up to the first '#', without its quotes.
   */
  lemma AssignedText(left: string, text: string, remark: Option<string>)
    requires '=' !in left && '[' !in left && '[' !in text && '#' !in text
    requires remark.Some? ==> '[' !in remark.value
    requires Content(left + ['='] + (text + Tail(remark)))
    ensures Classify(left + ['='] + (text + Tail(remark))) == Assign(Trim(left), Unquote(Trim(text)))
  {
    var right := text + Tail(remark);
    var raw := left + ['='] + right;
    TrimAcross(left, '=', right);
    TrimKeeps(left, '=');
    TrimKeeps(left, '[');
    assert '[' !in Tail(remark) && '[' !in right;
    TrimKeeps(right, '[');
    TrimAgain(left);
    FirstOfTrim(left, right);
    TextBeforeRemark(text, remark);
    hide TrimLeft, TrimRight, Trim, Classify, Unquote, Uncomment;
    AssignLine(raw, TrimLeft(left), TrimRight(right));
  }

  lemma FirstOfTrim(left: string, right: string)
    requires Content(left + ['='] + right)
    ensures TrimLeft(left) == "" || TrimLeft(left)[0] != '#'
  {
    TrimLeftBefore(left, '=', right);
  }

  lemma TextBeforeRemark(text: string, remark: Option<string>)
    requires '#' !in text
    ensures Uncomment(Trim(TrimRight(text + Tail(remark)))) == Trim(text)
  {
    hide TrimLeft, TrimRight, Uncomment;
    var pre := TrimLeftCuts(text);
    var post := TrimRightCuts(TrimLeft(text));
    assert text == pre + Trim(text) + post;
    TrimKeeps(text, '#');
    ValuePart(pre, Trim(text), post, remark);
  }

  predicate QuoteMark(q: char) {
    q == '"' || q == '\''
  }

  /** Unquoting takes off one pair of equal quote marks, and otherwise nothing. */
  lemma UnquoteIs(v: string)
    ensures forall q, w :: QuoteMark(q) && v == [q] + w + [q] ==> Unquote(v) == w
    ensures (forall q, w :: QuoteMark(q) ==> v != [q] + w + [q]) ==> Unquote(v) == v
  {
    if Quoted(v) {
      assert QuoteMark(v[0]) && v == [v[0]] + v[1..|v| - 1] + [v[0]];
    }
  }

  /** What get_string answers: nothing for a missing entry, else the stored value without a pair of quotes. */
  lemma GetStringIs(p: TomlParser, section: string, key: string)
    requires '.' !in section
    ensures var r := p.GetString(section + ['.'] + key);
            && (section !in p.keys || key !in p.keys[section] ==> r == "")
            && (section in p.keys && key in p.keys[section] ==>
                  var v := p.keys[section][key];
                  && (forall q, w :: QuoteMark(q) && v == [q] + w + [q] ==> r == w)
                  && ((forall q, w :: QuoteMark(q) ==> v != [q] + w + [q]) ==> r == v))
  {
    hide IndexOf, Unquote;
    var path := section + ['.'] + key;
    IndexAfter(section, '.', key);
    assert path[..|section|] == section && path[|section| + 1..] == key;
    if section in p.keys && key in p.keys[section] {
      UnquoteIs(p.keys[section][key]);
    }
  }
}
