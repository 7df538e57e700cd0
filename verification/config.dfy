/** The configuration loader: whole-line `//` comments are dropped, the rest
    is parsed as JSON, and the top-level value must be an object. Reading the
    file and JSON parsing itself are parameters. */
module Config {
  import opened Wrappers
  import opened Errors

  /** A parsed JSON document (numbers are kept as their source text). */
  datatype Json =
    | JNull
    | JBool(b: bool)
    | JNumber(text: string)
    | JString(s: string)
    | JArray(items: seq<Json>)
    | JObject(fields: map<string, Json>)

  const Newline: char := '\n'

  // ---------------------------------------------------------------------
  // str.split / str.join on one separator character
  // ---------------------------------------------------------------------

  /** `s.split(sep)`: always at least one part, and no part holds `sep`. */
  function Split(s: string, sep: char): (parts: seq<string>)
    ensures |parts| >= 1
    ensures forall i :: 0 <= i < |parts| ==> sep !in parts[i]
  {
    if s == [] then [""]
    else
      var rest := Split(s[1..], sep);
      if s[0] == sep then [""] + rest else [[s[0]] + rest[0]] + rest[1..]
  }

  /** `sep.join(parts)`. */
  function Join(parts: seq<string>, sep: char): string {
    if |parts| == 0 then ""
    else if |parts| == 1 then parts[0]
    else parts[0] + [sep] + Join(parts[1..], sep)
  }

  /** Joining the parts of a split gives back the original text. */
  lemma {:induction false} JoinSplit(s: string, sep: char)
    ensures Join(Split(s, sep), sep) == s
  {
    if s != [] {
      JoinSplit(s[1..], sep);
      var rest := Split(s[1..], sep);
      if s[0] != sep {
        if |rest| == 1 {
          assert Join(Split(s, sep), sep) == [s[0]] + rest[0];
        } else {
          assert Split(s, sep)[1..] == rest[1..];
          assert Join(rest, sep) == rest[0] + [sep] + Join(rest[1..], sep);
        }
      }
    }
  }

  lemma {:induction false} SplitJoinOne(a: string, b: string, sep: char)
    requires sep !in a
    ensures Split(a + [sep] + b, sep) == [a] + Split(b, sep)
  {
    var s := a + [sep] + b;
    if a == [] {
      assert s[1..] == b;
    } else {
      assert s[0] == a[0] != sep;
      assert s[1..] == a[1..] + [sep] + b;
      SplitJoinOne(a[1..], b, sep);
      assert [a[0]] + a[1..] == a;
    }
  }

  lemma {:induction false} SplitNoSeparator(a: string, sep: char)
    requires sep !in a
    ensures Split(a, sep) == [a]
  {
    if a != [] {
      assert a[0] != sep;
      SplitNoSeparator(a[1..], sep);
      assert [a[0]] + a[1..] == a;
    }
  }

  /** Splitting a join of separator-free parts gives back the parts. */
  lemma {:induction false} SplitJoin(parts: seq<string>, sep: char)
    requires |parts| >= 1
    requires forall i :: 0 <= i < |parts| ==> sep !in parts[i]
    ensures Split(Join(parts, sep), sep) == parts
  {
    if |parts| == 1 {
      SplitNoSeparator(parts[0], sep);
    } else {
      SplitJoin(parts[1..], sep);
      SplitJoinOne(parts[0], Join(parts[1..], sep), sep);
    }
  }

  // ---------------------------------------------------------------------
  // Comment lines
  // ---------------------------------------------------------------------

  /** `c.isspace()`: the characters `str.strip()` removes. */
  predicate IsSpace(c: char) {
    || c == ' ' || ('\U{0009}' <= c <= '\U{000D}') || ('\U{001C}' <= c <= '\U{001F}')
    || c == '\U{0085}' || c == '\U{00A0}' || c == '\U{1680}' || ('\U{2000}' <= c <= '\U{200A}')
    || c == '\U{2028}' || c == '\U{2029}' || c == '\U{202F}' || c == '\U{205F}' || c == '\U{3000}'
  }

  function LStrip(s: string): string {
    if s != [] && IsSpace(s[0]) then LStrip(s[1..]) else s
  }

  function RStrip(s: string): (r: string)
    ensures |r| <= |s| && r == s[..|r|]
  {
    if s != [] && IsSpace(s[|s| - 1]) then RStrip(s[..|s| - 1]) else s
  }

  /** `s.strip()`. */
  function Strip(s: string): string {
    RStrip(LStrip(s))
  }

  /** `line.strip().startswith('//')`. */
  predicate IsCommentLine(line: string) {
    var t := Strip(line);
    |t| >= 2 && t[..2] == "//"
  }

  /** The lines the loader keeps, in their original order. */
  function KeptLines(lines: seq<string>): (kept: seq<string>)
    ensures |kept| <= |lines|
    ensures forall l :: l in kept <==> l in lines && !IsCommentLine(l)
  {
    if lines == [] then []
    else if IsCommentLine(lines[0]) then KeptLines(lines[1..])
    else [lines[0]] + KeptLines(lines[1..])
  }

  /** The text handed to the JSON parser. */
  function StripComments(content: string): string {
    Join(KeptLines(Split(content, Newline)), Newline)
  }

  /** Filtering is line by line: a split of the input filters to the split of the output. */
  lemma {:induction false} KeptLinesAppend(a: seq<string>, b: seq<string>)
    ensures KeptLines(a + b) == KeptLines(a) + KeptLines(b)
  {
    if a == [] {
      assert a + b == b;
    } else {
      assert (a + b)[0] == a[0];
      assert (a + b)[1..] == a[1..] + b;
      KeptLinesAppend(a[1..], b);
    }
  }

  lemma {:induction false} KeptLinesAll(lines: seq<string>)
    requires forall i :: 0 <= i < |lines| ==> !IsCommentLine(lines[i])
    ensures KeptLines(lines) == lines
  {
    if lines != [] {
      KeptLinesAll(lines[1..]);
    }
  }

  lemma {:induction false} KeptLinesTwice(lines: seq<string>)
    ensures KeptLines(KeptLines(lines)) == KeptLines(lines)
  {
    var kept := KeptLines(lines);
    forall i | 0 <= i < |kept|
      ensures !IsCommentLine(kept[i])
    {
      assert kept[i] in kept;
    }
    KeptLinesAll(kept);
  }

  /** The lines of the cleaned text are exactly the non-comment lines of the
      input, unmodified and in order (an input of comment lines only gives ""). */
  lemma LinesOfStripped(content: string)
    ensures var kept := KeptLines(Split(content, Newline));
      if kept == [] then StripComments(content) == ""
      else Split(StripComments(content), Newline) == kept
  {
    var kept := KeptLines(Split(content, Newline));
    if kept != [] {
      forall i | 0 <= i < |kept|
        ensures Newline !in kept[i]
      {
        assert kept[i] in Split(content, Newline);
      }
      SplitJoin(kept, Newline);
    }
  }

  /** Content without comment lines reaches the parser unchanged. */
  lemma NoCommentsUnchanged(content: string)
    requires forall l :: l in Split(content, Newline) ==> !IsCommentLine(l)
    ensures StripComments(content) == content
  {
    var lines := Split(content, Newline);
    forall i | 0 <= i < |lines|
      ensures !IsCommentLine(lines[i])
    {
      assert lines[i] in lines;
    }
    KeptLinesAll(lines);
    JoinSplit(content, Newline);
  }

  /** Stripping comments a second time changes nothing. */
  lemma StripCommentsIdempotent(content: string)
    ensures StripComments(StripComments(content)) == StripComments(content)
  {
    var kept := KeptLines(Split(content, Newline));
    LinesOfStripped(content);
    if kept == [] {
      assert Split("", Newline) == [""];
      assert !IsCommentLine("");
    } else {
      KeptLinesTwice(Split(content, Newline));
    }
  }

  lemma {:induction false} LStripSkipsSpaces(ws: string, rest: string)
    requires forall i :: 0 <= i < |ws| ==> IsSpace(ws[i])
    ensures LStrip(ws + rest) == LStrip(rest)
  {
    if ws == [] {
      assert ws + rest == rest;
    } else {
      assert (ws + rest)[0] == ws[0];
      assert (ws + rest)[1..] == ws[1..] + rest;
      LStripSkipsSpaces(ws[1..], rest);
    }
  }

  lemma {:induction false} RStripKeepsHead(s: string)
    requires s != [] && !IsSpace(s[0])
    ensures RStrip(s) != [] && RStrip(s)[0] == s[0]
    ensures |s| >= 2 && !IsSpace(s[1]) ==> |RStrip(s)| >= 2 && RStrip(s)[..2] == s[..2]
  {
    if IsSpace(s[|s| - 1]) {
      RStripKeepsHead(s[..|s| - 1]);
    }
  }

  /** A line is a comment exactly when its first non-blank characters are `//`:
      text before a `//` keeps the line. */
  lemma CommentLineByFirstCharacter(ws: string, c: char, rest: string)
    requires forall i :: 0 <= i < |ws| ==> IsSpace(ws[i])
    requires !IsSpace(c)
    ensures IsCommentLine(ws + [c] + rest) <==> c == '/' && |rest| >= 1 && rest[0] == '/'
  {
    LStripSkipsSpaces(ws, [c] + rest);
    assert ws + [c] + rest == ws + ([c] + rest);
    var s := [c] + rest;
    assert LStrip(s) == s;
    RStripKeepsHead(s);
  }

  // ---------------------------------------------------------------------
  // Loading
  // ---------------------------------------------------------------------

  const InvalidJsonPrefix := "Error in JSON structure of file "
  const NotAnObject := "The configuration file must contain a valid JSON object"

  /** `load_configs` once the file at `path` has been read: `parse` is
      `json.loads`, failing with the decoder's message. */
  function LoadConfig(path: string, content: string, parse: string -> Result<Json, string>)
    : (r: Result<map<string, Json>, Error>)
    ensures r.Success? <==> parse(StripComments(content)).Success? && parse(StripComments(content)).value.JObject?
    ensures r.Success? ==> parse(StripComments(content)) == Success(JObject(r.value))
    ensures parse(StripComments(content)).Failure? ==>
      r == Failure(ValueError(InvalidJsonPrefix + path + ": " + parse(StripComments(content)).error))
    ensures parse(StripComments(content)).Success? && !parse(StripComments(content)).value.JObject? ==>
      r == Failure(ValueError(NotAnObject))
  {
    match parse(StripComments(content))
    case Failure(message) => Failure(ValueError(InvalidJsonPrefix + path + ": " + message))
    case Success(JObject(fields)) => Success(fields)
    case Success(_) => Failure(ValueError(NotAnObject))
  }
}
