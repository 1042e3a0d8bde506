/**
 * The line parser: what one line means, what a sequence of lines leaves in the tables,
 * and the object whose loop fills them in place.
 */
module TomlParser {
  import opened Options
  import opened TomlText

  type Keys = map<string, map<string, string>>

  datatype Line = Noise | Section(name: string) | Assign(key: string, value: string) | Malformed

  predicate Quoted(v: string) {
    && |v| >= 2
    && ((v[0] == '"' && v[|v| - 1] == '"') || (v[0] == '\'' && v[|v| - 1] == '\''))
  }

  function Unquote(v: string): string {
    if Quoted(v) then v[1..|v| - 1] else v
  }

  /** The value up to its first '#', trimmed again. */
  function Uncomment(v: string): string {
    if '#' in v then TrimLeft(TrimRight(v[..IndexOf(v, '#')])) else v
  }

  function SectionIn(line: string): string
    requires '[' in line
  {
    var rest := line[IndexOf(line, '[') + 1..];
    Trim(rest[..IndexOf(rest, ']')])
  }

  function Classify(raw: string): Line {
    var line := Trim(raw);
    if line == "" || line[0] == '#' then Noise
    else if '[' in line then Section(SectionIn(line))
    else if '=' !in line then Malformed
    else
      var eq := IndexOf(line, '=');
      Assign(Trim(line[..eq]), Unquote(Uncomment(Trim(line[eq + 1..]))))
  }

  /** The parser's tables, with the section the next assignment belongs to. */
  datatype Tables = Tables(current: string, sections: seq<string>, keys: Keys)

  datatype Result = Result(ok: bool, tables: Tables)

  function Get(keys: Keys, section: string, key: string): Option<string> {
    if section in keys && key in keys[section] then Some(keys[section][key]) else None
  }

  /** m_keys[section].emplace(key, value): a key already there keeps its value. */
  function Emplace(keys: Keys, section: string, key: string, value: string): (r: Keys)
    ensures forall s, k :: Get(r, s, k) ==
              if s == section && k == key && Get(keys, s, k).None? then Some(value) else Get(keys, s, k)
  {
    var inner := if section in keys then keys[section] else map[];
    keys[section := if key in inner then inner else inner[key := value]]
  }

  function ReadLine(t: Tables, raw: string): Result {
    match Classify(raw)
    case Noise => Result(true, t)
    case Section(name) => Result(true, t.(current := name, sections := t.sections + [name]))
    case Malformed => Result(false, t)
    case Assign(key, value) =>
      if t.current == "" then Result(false, t)
      else Result(true, t.(keys := Emplace(t.keys, t.current, key, value)))
  }

  /** Lines in order, up to the first one that is refused. */
  function Read(t: Tables, lines: seq<string>): Result
    decreases |lines|
  {
    if lines == [] then Result(true, t)
    else
      var r := ReadLine(t, lines[0]);
      if r.ok then Read(r.tables, lines[1..]) else r
  }

  class TomlParser {
    var sections: seq<string>
    var keys: Keys

    constructor ()
      ensures sections == [] && keys == map[]
    {
      sections, keys := [], map[];
    }

    /** The loop of extract_keys. Entries read before a refused line stay in the tables. */
    method ExtractKeys(lines: seq<string>) returns (ok: bool)
      modifies this
      ensures var r := Read(Tables("", old(sections), old(keys)), lines);
              ok == r.ok && sections == r.tables.sections && keys == r.tables.keys
    {
      hide Classify, SectionIn, Uncomment, Unquote, Emplace;
      var current := "";
      ghost var start := Tables("", sections, keys);
      var i := 0;
      while i < |lines|
        invariant i <= |lines|
        invariant Read(Tables(current, sections, keys), lines[i..]) == Read(start, lines)
      {
        ghost var t := Tables(current, sections, keys);
        assert lines[i..][0] == lines[i] && lines[i..][1..] == lines[i + 1..];
        var line := Classified(lines[i]);
        i := i + 1;
        match line {
          case Noise =>
          case Section(name) =>
            current := name;
            sections := sections + [name];
          case Malformed =>
            return false;
          case Assign(key, value) =>
            if current == "" {
              return false;
            }
            keys := Emplace(keys, current, key, value);
        }
      }
      return true;
    }

    /** One line of the loop: the string is erased from both ends in place, then cut up. */
    method Classified(raw: string) returns (r: Line)
      ensures r == Classify(raw)
    {
      hide TrimLeft, TrimRight, IndexOf, Trimmed, AllBlank;
      var line := raw;
      line := TrimLeft(line);
      if line == "" {
        TrimOfBlank(raw);
        return Noise;
      }
      line := TrimRight(line);
      if |line| > 0 && line[0] == '#' {
        return Noise;
      }
      TrimNonBlank(raw);
      var leftBracket := IndexOf(line, '[');
      if leftBracket != |line| {
        var section := line[leftBracket + 1..];
        section := section[..IndexOf(section, ']')];
        section := TrimLeft(section);
        section := TrimRight(section);
        return Section(section);
      }
      var equalSign := IndexOf(line, '=');
      if equalSign == |line| {
        return Malformed;
      }
      var key, val := line[..equalSign], line[equalSign + 1..];
      key := TrimLeft(key);
      key := TrimRight(key);
      val := TrimLeft(val);
      val := TrimRight(val);
      var commentPos := IndexOf(val, '#');
      if commentPos != |val| {
        val := val[..commentPos];
        val := TrimRight(val);
        val := TrimLeft(val);
      }
      if Quoted(val) {
        val := val[1..1 + (|val| - 2)];
      }
      return Assign(key, val);
    }

    function GetValue(section: string, key: string): (r: Option<string>)
      reads this
      ensures r == Get(keys, section, key)
    {
      if section !in keys then None
      else if key !in keys[section] then None
      else Some(keys[section][key])
    }

    /** Lookup by "section.key"; a quoted value loses a second pair of quotes here. */
    function GetString(path: string): (r: string)
      reads this
      ensures '.' !in path ==> r == ""
    {
      var dot := IndexOf(path, '.');
      if dot == |path| then "" else
      match GetValue(path[..dot], path[dot + 1..])
      case None => ""
      case Some(v) => Unquote(v)
    }
  }

  lemma TrimOfBlank(raw: string)
    requires TrimLeft(raw) == ""
    ensures Classify(raw) == Noise
  {
  }

  lemma TrimNonBlank(raw: string)
    requires TrimLeft(raw) != ""
    ensures Trim(raw) != ""
  {
    TrimKeeps(TrimLeft(raw), TrimLeft(raw)[0]);
  }
}
