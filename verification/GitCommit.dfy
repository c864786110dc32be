/**
 krgpg's reading of what git asks it to sign: header lines read one by one and
 normalised to single spaces, then the message taken as it is. Text is a sequence of
 Unicode characters.
 */
module GitCommit {
  import opened Basics

  type Text = seq<char>

  datatype ParseError = EndOfInput | NoTokens | UnexpectedTag | WrongTag

  // ---------- tokens ----------

  /** unicode.IsSpace */
  predicate IsSpace(c: char) {
    || '\t' <= c <= '\r' || c == ' ' || c == '\U{0085}' || c == '\U{00A0}' || c == '\U{1680}'
    || '\U{2000}' <= c <= '\U{200A}' || c == '\U{2028}' || c == '\U{2029}' || c == '\U{202F}'
    || c == '\U{205F}' || c == '\U{3000}'
  }

  predicate IsToken(t: Text) {
    t != [] && forall i :: 0 <= i < |t| ==> !IsSpace(t[i])
  }

  /** Length of the leading stretch without white space. */
  function TokenLength(s: Text): (n: nat)
    ensures n <= |s|
    ensures forall i :: 0 <= i < n ==> !IsSpace(s[i])
    ensures n < |s| ==> IsSpace(s[n])
  {
    if s == [] || IsSpace(s[0]) then 0
    else
      var n := TokenLength(s[1..]);
      assert forall i :: 0 < i < n + 1 ==> s[i] == s[1..][i - 1];
      1 + n
  }

  /** strings.Fields */
  function Fields(s: Text): (r: seq<Text>)
    ensures forall i :: 0 <= i < |r| ==> IsToken(r[i])
    decreases |s|
  {
    if s == [] then []
    else if IsSpace(s[0]) then Fields(s[1..])
    else
      var n := TokenLength(s);
      [s[..n]] + Fields(s[n..])
  }

  /** strings.Join with a single space */
  function Join(tokens: seq<Text>): Text {
    if tokens == [] then []
    else if |tokens| == 1 then tokens[0]
    else tokens[0] + " " + Join(tokens[1..])
  }

  /** The text that reading a line leaves unchanged: tokens joined by single spaces. */
  predicate Normal(s: Text) {
    Join(Fields(s)) == s
  }

  lemma TokenLengthIs(s: Text, n: nat)
    requires n <= |s| && (forall i :: 0 <= i < n ==> !IsSpace(s[i])) && (n < |s| ==> IsSpace(s[n]))
    ensures TokenLength(s) == n
  {
  }

  lemma FieldsOfToken(t: Text, rest: Text)
    requires IsToken(t) && (rest != [] ==> IsSpace(rest[0]))
    ensures Fields(t + rest) == [t] + Fields(rest)
  {
    var s := t + rest;
    assert forall i :: 0 <= i < |t| ==> s[i] == t[i];
    TokenLengthIs(s, |t|);
    assert s[..|t|] == t && s[|t|..] == rest;
  }

  lemma FieldsOfSpace(c: char, rest: Text)
    requires IsSpace(c)
    ensures Fields([c] + rest) == Fields(rest)
  {
    assert ([c] + rest)[1..] == rest;
  }

  lemma FieldsOfTwo(t: Text, rest: Text)
    requires IsToken(t)
    ensures Fields(t + " " + rest) == [t] + Fields(rest)
  {
    FieldsOfSpace(' ', rest);
    FieldsOfToken(t, " " + rest);
    assert t + " " + rest == t + (" " + rest);
  }

  predicate AllTokens(tokens: seq<Text>) {
    forall i :: 0 <= i < |tokens| ==> IsToken(tokens[i])
  }

  lemma {:induction false} FieldsOfJoin(tokens: seq<Text>)
    requires AllTokens(tokens)
    ensures Fields(Join(tokens)) == tokens
    decreases |tokens|
  {
    if tokens == [] {
    } else if |tokens| == 1 {
      FieldsOfToken(tokens[0], []);
      assert tokens[0] + [] == tokens[0];
    } else {
      FieldsOfJoin(tokens[1..]);
      FieldsOfTwo(tokens[0], Join(tokens[1..]));
    }
  }

  lemma JoinIsNormal(tokens: seq<Text>)
    requires AllTokens(tokens)
    ensures Normal(Join(tokens))
  {
    FieldsOfJoin(tokens);
  }

  lemma {:induction false} JoinHasNoNewline(tokens: seq<Text>)
    requires AllTokens(tokens)
    ensures '\n' !in Join(tokens)
    decreases |tokens|
  {
    if |tokens| > 1 { JoinHasNoNewline(tokens[1..]); }
  }

  lemma {:induction false} FieldsOfLine(s: Text)
    ensures Fields(s + "\n") == Fields(s)
    decreases |s|
  {
    if s == [] {
      assert s + "\n" == ['\n'] + [];
      FieldsOfSpace('\n', []);
    } else if IsSpace(s[0]) {
      assert (s + "\n")[1..] == s[1..] + "\n";
      FieldsOfLine(s[1..]);
    } else {
      var n := TokenLength(s);
      FieldsOfLine(s[n..]);
      assert s + "\n" == s[..n] + (s[n..] + "\n");
      FieldsOfToken(s[..n], s[n..] + "\n");
    }
  }

  // ---------- one line ----------

  datatype Line = Line(tag: Text, contents: Text, rest: Text)

  function NewlineAt(s: Text): (n: nat)
    ensures n <= |s| && (n < |s| ==> s[n] == '\n') && '\n' !in s[..n]
  {
    if s == [] || s[0] == '\n' then 0
    else
      var n := NewlineAt(s[1..]);
      assert s[..n + 1] == [s[0]] + s[1..][..n];
      1 + n
  }

  /** readLineSplittingFirstToken: an unterminated line is an error, and so is a blank one. */
  function ReadLine(s: Text): Result<Line, ParseError> {
    var n := NewlineAt(s);
    if n == |s| then Err(EndOfInput)
    else
      var tokens := Fields(s[..n + 1]);
      if tokens == [] then Err(NoTokens)
      else Ok(Line(tokens[0], Join(tokens[1..]), s[n + 1..]))
  }

  lemma ReadLineShrinks(s: Text)
    requires ReadLine(s).Ok?
    ensures |ReadLine(s).value.rest| < |s|
    ensures Normal(ReadLine(s).value.contents)
  {
    var tokens := Fields(s[..NewlineAt(s) + 1]);
    JoinIsNormal(tokens[1..]);
  }

  function PrintLine(tag: Text, contents: Text, rest: Text): Text {
    tag + " " + contents + "\n" + rest
  }

  /** A printed header line reads back as its tag and contents. */
  lemma ReadPrintedLine(tag: Text, contents: Text, rest: Text)
    requires IsToken(tag) && Normal(contents)
    ensures ReadLine(PrintLine(tag, contents, rest)) == Ok(Line(tag, contents, rest))
  {
    var body := tag + " " + contents;
    var s := body + "\n" + rest;
    JoinHasNoNewline(Fields(contents));
    assert '\n' !in body;
    var n := NewlineAt(s);
    assert n == |body| by {
      assert s[|body|] == '\n';
      assert forall i :: 0 <= i < |body| ==> s[i] == body[i];
    }
    assert s[..n + 1] == body + "\n" && s[n + 1..] == rest;
    FieldsOfLine(body);
    FieldsOfTwo(tag, contents);
    assert ([tag] + Fields(contents))[1..] == Fields(contents);
  }

  // ---------- commits and tags ----------

  datatype Commit = Commit(
    tree: Text,
    parent: Option<Text>,
    mergeParents: Option<seq<Text>>,
    author: Text,
    committer: Text,
    message: Text)

  datatype Tag = Tag(target: Text, kind: Text, tag: Text, tagger: Text, message: Text)

  datatype Signable = SignCommit(commit: Commit) | SignTag(tag: Tag)

  datatype Headers = Headers(parent: Option<Text>, mergeParents: Option<seq<Text>>, author: Text, rest: Text)

  function AddParent(parent: Option<Text>, merges: Option<seq<Text>>, p: Text): (Option<Text>, Option<seq<Text>>) {
    if parent == None then (Some(p), merges)
    else (parent, Some((if merges.Some? then merges.value else []) + [p]))
  }

  /** Parents in order, up to the author. */
  function ParseHeaders(s: Text, parent: Option<Text>, merges: Option<seq<Text>>): Result<Headers, ParseError>
    decreases |s|
  {
    match ReadLine(s)
    case Err(e) => Err(e)
    case Ok(line) =>
      ReadLineShrinks(s);
      if line.tag == "parent" then
        var (p, m) := AddParent(parent, merges, line.contents);
        ParseHeaders(line.rest, p, m)
      else if line.tag == "author" then Ok(Headers(parent, merges, line.contents, line.rest))
      else Err(UnexpectedTag)
  }

  function ParseCommit(tree: Text, s: Text): Result<Commit, ParseError> {
    match ParseHeaders(s, None, None)
    case Err(e) => Err(e)
    case Ok(h) =>
      match ReadLine(h.rest)
      case Err(e) => Err(e)
      case Ok(line) => Ok(Commit(tree, h.parent, h.mergeParents, h.author, line.contents, line.rest))
  }

  function ParseTag(target: Text, s: Text): Result<Tag, ParseError> {
    match ReadLine(s)
    case Err(e) => Err(e)
    case Ok(kind) =>
      match ReadLine(kind.rest)
      case Err(e) => Err(e)
      case Ok(tag) =>
        match ReadLine(tag.rest)
        case Err(e) => Err(e)
        case Ok(tagger) => Ok(Tag(target, kind.contents, tag.contents, tagger.contents, tagger.rest))
  }

  function Parse(stdin: Text): Result<Signable, ParseError> {
    match ReadLine(stdin)
    case Err(e) => Err(e)
    case Ok(line) =>
      if line.tag == "tree" then
        match ParseCommit(line.contents, line.rest)
        case Err(e) => Err(e)
        case Ok(c) => Ok(SignCommit(c))
      else if line.tag == "object" then
        match ParseTag(line.contents, line.rest)
        case Err(e) => Err(e)
        case Ok(t) => Ok(SignTag(t))
      else Err(WrongTag)
  }

  // ---------- the reader, as the source drives it ----------

  class Reader {
    var rest: Text

    constructor (text: Text)
      ensures rest == text
    {
      rest := text;
    }

    /** A failed read consumes what it looked at; nothing reads on after that. */
    method ReadLineSplittingFirstToken() returns (r: Result<(Text, Text), ParseError>)
      modifies this
      ensures match ReadLine(old(rest))
              case Err(e) => r == Err(e)
              case Ok(line) => r == Ok((line.tag, line.contents)) && rest == line.rest
    {
      var n := NewlineAt(rest);
      if n == |rest| {
        rest := [];
        return Err(EndOfInput);
      }
      var line := rest[..n + 1];
      rest := rest[n + 1..];
      var toks := Fields(line);
      if |toks| == 0 {
        return Err(NoTokens);
      }
      return Ok((toks[0], Join(toks[1..])));
    }

    method SignGitCommit(tree: Text) returns (r: Result<Commit, ParseError>)
      modifies this
      ensures r == ParseCommit(tree, old(rest))
    {
      var firstParent: Option<Text> := None;
      var mergeParents: Option<seq<Text>> := None;
      var author: Text := [];
      while true
        invariant ParseHeaders(rest, firstParent, mergeParents) == ParseHeaders(old(rest), None, None)
        decreases |rest|
      {
        ghost var before := rest;
        var line := ReadLineSplittingFirstToken();
        if line.Err? {
          return Err(line.error);
        }
        ReadLineShrinks(before);
        var (tag, contents) := line.value;
        if tag == "parent" {
          if firstParent == None {
            firstParent := Some(contents);
            continue;
          }
          if mergeParents == None {
            mergeParents := Some([]);
          }
          mergeParents := Some(mergeParents.value + [contents]);
        } else if tag == "author" {
          author := contents;
          break;
        } else {
          return Err(UnexpectedTag);
        }
      }
      var committer := ReadLineSplittingFirstToken();
      if committer.Err? {
        return Err(committer.error);
      }
      return Ok(Commit(tree, firstParent, mergeParents, author, committer.value.1, rest));
    }

    method SignGitTag(target: Text) returns (r: Result<Tag, ParseError>)
      modifies this
      ensures r == ParseTag(target, old(rest))
    {
      var kind := ReadLineSplittingFirstToken();
      if kind.Err? {
        return Err(kind.error);
      }
      var tag := ReadLineSplittingFirstToken();
      if tag.Err? {
        return Err(tag.error);
      }
      var tagger := ReadLineSplittingFirstToken();
      if tagger.Err? {
        return Err(tagger.error);
      }
      return Ok(Tag(target, kind.value.1, tag.value.1, tagger.value.1, rest));
    }

    /** What is to be signed depends on the first word. */
    method SignGit() returns (r: Result<Signable, ParseError>)
      modifies this
      ensures r == Parse(old(rest))
    {
      var first := ReadLineSplittingFirstToken();
      if first.Err? {
        return Err(first.error);
      }
      if first.value.0 == "tree" {
        var c := SignGitCommit(first.value.1);
        return if c.Ok? then Ok(SignCommit(c.value)) else Err(c.error);
      } else if first.value.0 == "object" {
        var t := SignGitTag(first.value.1);
        return if t.Ok? then Ok(SignTag(t.value)) else Err(t.error);
      }
      return Err(WrongTag);
    }
  }

  // ---------- what is accepted ----------

  lemma {:induction false} NoFieldsIff(s: Text)
    ensures Fields(s) == [] <==> forall i :: 0 <= i < |s| ==> IsSpace(s[i])
    decreases |s|
  {
    if s != [] && IsSpace(s[0]) {
      NoFieldsIff(s[1..]);
      assert forall i :: 0 < i < |s| ==> s[i] == s[1..][i - 1];
    }
  }

  /** Where the first line ends, and what it holds. */
  lemma FirstLine(s: Text)
    requires '\n' in s
    ensures var n := NewlineAt(s);
            && n < |s| && s == s[..n] + "\n" + s[n + 1..] && '\n' !in s[..n]
            && Fields(s[..n + 1]) == Fields(s[..n])
  {
    var n := NewlineAt(s);
    assert s[..|s|] == s;
    CutAtNewline(s, n);
    FieldsOfLine(s[..n]);
  }

  lemma CutAtNewline(s: Text, n: nat)
    requires n < |s| && s[n] == '\n'
    ensures s == s[..n] + "\n" + s[n + 1..] && s[..n + 1] == s[..n] + "\n"
  {
  }

  /** The first line ends at `n` and is blank. */
  ghost predicate BlankUpTo(s: Text, n: int) {
    0 <= n < |s| && s[n] == '\n' && forall i :: 0 <= i < n ==> s[i] != '\n' && IsSpace(s[i])
  }

  /** A line is refused if it is not terminated or blank. */
  lemma RefusedLines(s: Text)
    ensures ReadLine(s) == Err(EndOfInput) <==> '\n' !in s
    ensures ReadLine(s) == Err(NoTokens) <==> exists n :: BlankUpTo(s, n)
  {
    var n := NewlineAt(s);
    if '\n' in s {
      FirstLine(s);
      NoFieldsIff(s[..n]);
      if Fields(s[..n]) == [] {
        assert forall i :: 0 <= i < n ==> s[i] == s[..n][i];
        assert BlankUpTo(s, n);
      }
      if m :| BlankUpTo(s, m) {
        assert m >= n by { assert forall i :: 0 <= i < n ==> s[..n][i] == s[i] && s[..n][i] in s[..n]; }
        assert forall i :: 0 <= i < n ==> s[..n][i] == s[i];
      }
    }
  }

  /** Otherwise its tokens are returned, the first apart from the others, and what follows the line remains. */
  lemma ReadLineTokens(s: Text)
    requires ReadLine(s).Ok?
    ensures var line := ReadLine(s).value;
            exists head :: '\n' !in head && s == head + "\n" + line.rest
                     && Fields(head) == [line.tag] + Fields(line.contents) && Normal(line.contents)
  {
    var n := NewlineAt(s);
    assert s[n] in s;
    FirstLine(s);
    var head, tokens := s[..n], Fields(s[..n]);
    FieldsOfJoin(tokens[1..]);
    assert tokens == [tokens[0]] + tokens[1..];
    var line := ReadLine(s).value;
    assert '\n' !in head && s == head + "\n" + line.rest
           && Fields(head) == [line.tag] + Fields(line.contents) && Normal(line.contents);
  }

  /** The first `n` lines, as tags and contents, and what is left; None if one of them is refused. */
  function ReadLines(s: Text, n: nat): Option<(seq<(Text, Text)>, Text)>
    decreases n
  {
    if n == 0 then Some(([], s))
    else
      match ReadLine(s)
      case Err(_) => None
      case Ok(line) =>
        match ReadLines(line.rest, n - 1)
        case None => None
        case Some((lines, rest)) => Some(([(line.tag, line.contents)] + lines, rest))
  }

  lemma ReadLinesCons(s: Text, n: nat, tag: Text, contents: Text, lines: seq<(Text, Text)>, rest: Text)
    ensures ReadLines(s, n + 1) == Some(([(tag, contents)] + lines, rest)) <==>
            && ReadLine(s).Ok? && ReadLine(s).value.tag == tag && ReadLine(s).value.contents == contents
            && ReadLines(ReadLine(s).value.rest, n) == Some((lines, rest))
  {
    if ReadLine(s).Ok? {
      var line := ReadLine(s).value;
      var more := ReadLines(line.rest, n);
      if more.Some? {
        var all := [(line.tag, line.contents)] + more.value.0;
        var want := [(tag, contents)] + lines;
        assert all[0] == (line.tag, line.contents) && all[1..] == more.value.0;
        assert want[0] == (tag, contents) && want[1..] == lines;
      }
    }
  }

  /** The header lines of a commit from its parents on; the committer's tag is not looked at. */
  function HeaderLines(parents: seq<Text>, author: Text, tag: Text, committer: Text): seq<(Text, Text)>
    decreases |parents|
  {
    if parents == [] then [("author", author)] + [(tag, committer)]
    else [("parent", parents[0])] + HeaderLines(parents[1..], author, tag, committer)
  }

  lemma ReadLinesOne(s: Text, tag: Text, contents: Text, rest: Text)
    ensures ReadLines(s, 1) == Some(([(tag, contents)], rest)) <==> ReadLine(s) == Ok(Line(tag, contents, rest))
  {
    ReadLinesCons(s, 0, tag, contents, [], rest);
    assert [(tag, contents)] + [] == [(tag, contents)];
  }

  /** The parsed headers `h` and the committer line behind them are exactly these lines of the input. */
  lemma {:induction false} AcceptedHeaders(s: Text, parent: Option<Text>, merges: Option<seq<Text>>) returns (parents: seq<Text>)
    requires ParseHeaders(s, parent, merges).Ok? && ReadLine(ParseHeaders(s, parent, merges).value.rest).Ok?
    ensures var h := ParseHeaders(s, parent, merges).value;
            var last := ReadLine(h.rest).value;
            && WithParents(parent, merges, parents) == (h.parent, h.mergeParents)
            && ReadLines(s, |parents| + 2) == Some((HeaderLines(parents, h.author, last.tag, last.contents), last.rest))
    decreases |s|
  {
    var line := ReadLine(s).value;
    ReadLineShrinks(s);
    var h := ParseHeaders(s, parent, merges).value;
    var last := ReadLine(h.rest).value;
    if line.tag == "parent" {
      var (p, m) := AddParent(parent, merges, line.contents);
      var more := AcceptedHeaders(line.rest, p, m);
      parents := [line.contents] + more;
      assert parents[1..] == more;
      ReadLinesCons(s, |more| + 2, "parent", line.contents, HeaderLines(more, h.author, last.tag, last.contents), last.rest);
    } else {
      parents := [];
      ReadLinesOne(h.rest, last.tag, last.contents, last.rest);
      ReadLinesCons(s, 1, "author", h.author, [(last.tag, last.contents)], last.rest);
    }
  }

  lemma {:induction false} HeadersAccepted(s: Text, parent: Option<Text>, merges: Option<seq<Text>>, parents: seq<Text>,
                                           author: Text, tag: Text, committer: Text, rest: Text)
    requires ReadLines(s, |parents| + 2) == Some((HeaderLines(parents, author, tag, committer), rest))
    ensures ParseHeaders(s, parent, merges).Ok?
    ensures var h := ParseHeaders(s, parent, merges).value;
            && (h.parent, h.mergeParents) == WithParents(parent, merges, parents) && h.author == author
            && ReadLine(h.rest) == Ok(Line(tag, committer, rest))
    decreases |parents|
  {
    if parents == [] {
      ReadLinesCons(s, 1, "author", author, [(tag, committer)], rest);
      ReadLinesOne(ReadLine(s).value.rest, tag, committer, rest);
    } else {
      var more := parents[1..];
      ReadLinesCons(s, |more| + 2, "parent", parents[0], HeaderLines(more, author, tag, committer), rest);
      var (p, m) := AddParent(parent, merges, parents[0]);
      HeadersAccepted(ReadLine(s).value.rest, p, m, more, author, tag, committer, rest);
    }
  }

  /** The lines that a commit is read from. */
  ghost predicate ReadFrom(stdin: Text, c: Commit, tag: Text) {
    var parents := Parents(c);
    ReadLines(stdin, |parents| + 3) ==
    Some(([("tree", c.tree)] + HeaderLines(parents, c.author, tag, c.committer), c.message))
  }

  /** The parts that an accepted commit is made of. */
  lemma CommitParts(stdin: Text, c: Commit) returns (first: Line, h: Headers, last: Line)
    requires Parse(stdin) == Ok(SignCommit(c))
    ensures ReadLine(stdin) == Ok(first) && first.tag == "tree"
    ensures ParseHeaders(first.rest, None, None) == Ok(h) && ReadLine(h.rest) == Ok(last)
    ensures c == Commit(first.contents, h.parent, h.mergeParents, h.author, last.contents, last.rest)
  {
    first := ReadLine(stdin).value;
    h := ParseHeaders(first.rest, None, None).value;
    last := ReadLine(h.rest).value;
  }

  lemma CommitIsReadFrom(stdin: Text, c: Commit) returns (tag: Text)
    requires Parse(stdin) == Ok(SignCommit(c))
    ensures ReadFrom(stdin, c, tag)
  {
    var first, h, last := CommitParts(stdin, c);
    var parents := AcceptedHeaders(first.rest, None, None);
    ParentsOfCommit(c, parents);
    tag := last.tag;
    ReadLinesCons(stdin, |parents| + 2, first.tag, c.tree, HeaderLines(parents, c.author, tag, c.committer), c.message);
  }

  lemma ParentsOfCommit(c: Commit, parents: seq<Text>)
    requires WithParents(None, None, parents) == (c.parent, c.mergeParents)
    ensures Parents(c) == parents
  {
    ParentsAreAll(parents);
  }

  /** Collecting parents one by one loses none and keeps their order. */
  lemma ParentsAreAll(parents: seq<Text>)
    ensures var (p, m) := WithParents(None, None, parents);
            && (if p.Some? then [p.value] else []) + (if m.Some? then m.value else []) == parents
            && (m.Some? <==> |parents| >= 2)
  {
    if |parents| == 1 {
      assert parents[1..] == [];
    } else if |parents| > 1 {
      var rest := parents[1..];
      assert [] + [rest[0]] == [rest[0]];
      MergesInOrder(parents[0], [rest[0]], rest[1..]);
      assert [rest[0]] + rest[1..] == rest;
    }
  }

  lemma ReadFromIsCommit(stdin: Text, c: Commit, tag: Text)
    requires ReadFrom(stdin, c, tag) && (c.mergeParents.Some? ==> c.parent.Some? && c.mergeParents.value != [])
    ensures Parse(stdin) == Ok(SignCommit(c))
  {
    var parents := Parents(c);
    ReadLinesCons(stdin, |parents| + 2, "tree", c.tree, HeaderLines(parents, c.author, tag, c.committer), c.message);
    HeadersAccepted(ReadLine(stdin).value.rest, None, None, parents, c.author, tag, c.committer, c.message);
    ParentsReadBack(c);
  }

  /**
   Exactly what is accepted as the commit `c`: a tree line, one parent line for each of its
   parents in order, an author line, one more line, and the message. Any other header in
   front of the author is refused.
   */
  lemma AcceptedIff(stdin: Text, c: Commit)
    ensures Parse(stdin) == Ok(SignCommit(c)) <==>
            && (c.mergeParents.Some? ==> c.parent.Some? && c.mergeParents.value != [])
            && exists tag :: ReadFrom(stdin, c, tag)
  {
    if Parse(stdin) == Ok(SignCommit(c)) {
      var tag := CommitIsReadFrom(stdin, c);
      ParsedIsPrintable(stdin);
    }
    if (c.mergeParents.Some? ==> c.parent.Some? && c.mergeParents.value != []) && exists tag :: ReadFrom(stdin, c, tag) {
      var tag :| ReadFrom(stdin, c, tag);
      ReadFromIsCommit(stdin, c, tag);
    }
  }

  /** The lines that a tag is read from; only the first of their words is looked at. */
  ghost predicate TagReadFrom(stdin: Text, t: Tag, w1: Text, w2: Text, w3: Text) {
    ReadLines(stdin, 4) == Some(([("object", t.target), (w1, t.kind), (w2, t.tag), (w3, t.tagger)], t.message))
  }

  /** And as the tag `t`: an object line, three more, and the message. */
  lemma AcceptedTagIff(stdin: Text, t: Tag)
    ensures Parse(stdin) == Ok(SignTag(t)) <==> exists w1, w2, w3 :: TagReadFrom(stdin, t, w1, w2, w3)
  {
    ReadFour(stdin);
    if Parse(stdin) == Ok(SignTag(t)) {
      var lines := ReadLines(stdin, 4).value.0;
      assert TagReadFrom(stdin, t, lines[1].0, lines[2].0, lines[3].0);
    }
    if w1, w2, w3 :| TagReadFrom(stdin, t, w1, w2, w3) {
      var lines := ReadLines(stdin, 4).value.0;
      assert lines[0] == ("object", t.target) && lines[1] == (w1, t.kind) && lines[2] == (w2, t.tag) && lines[3] == (w3, t.tagger);
    }
  }

  lemma ReadFour(s: Text)
    ensures ReadLines(s, 4).Some? <==>
            && ReadLine(s).Ok? && ReadLine(ReadLine(s).value.rest).Ok?
            && ReadLine(ReadLine(ReadLine(s).value.rest).value.rest).Ok?
            && ReadLine(ReadLine(ReadLine(ReadLine(s).value.rest).value.rest).value.rest).Ok?
    ensures ReadLines(s, 4).Some? ==>
            var a := ReadLine(s).value;
            var b := ReadLine(a.rest).value;
            var c := ReadLine(b.rest).value;
            var d := ReadLine(c.rest).value;
            ReadLines(s, 4).value ==
            ([(a.tag, a.contents), (b.tag, b.contents), (c.tag, c.contents), (d.tag, d.contents)], d.rest)
  {
    if ReadLines(s, 4).Some? {
      var a := ReadLine(s).value;
      var b := ReadLine(a.rest).value;
      var c := ReadLine(b.rest).value;
      var d := ReadLine(c.rest).value;
      var x4 := [(d.tag, d.contents)];
      var x3 := [(c.tag, c.contents)] + x4;
      var x2 := [(b.tag, b.contents)] + x3;
      ReadLinesOne(c.rest, d.tag, d.contents, d.rest);
      ReadLinesCons(b.rest, 1, c.tag, c.contents, x4, d.rest);
      ReadLinesCons(a.rest, 2, b.tag, b.contents, x3, d.rest);
      ReadLinesCons(s, 3, a.tag, a.contents, x2, d.rest);
      assert [(a.tag, a.contents)] + x2 == [(a.tag, a.contents), (b.tag, b.contents), (c.tag, c.contents), (d.tag, d.contents)];
    }
  }

  // ---------- printing ----------

  function Parents(c: Commit): seq<Text> {
    (if c.parent.Some? then [c.parent.value] else []) + (if c.mergeParents.Some? then c.mergeParents.value else [])
  }

  function PrintParents(parents: seq<Text>): Text
    decreases |parents|
  {
    if parents == [] then [] else PrintLine("parent", parents[0], PrintParents(parents[1..]))
  }

  function PrintFromCommitter(c: Commit): Text {
    PrintLine("committer", c.committer, c.message)
  }

  function PrintAfterTree(c: Commit): Text {
    PrintParents(Parents(c)) + PrintLine("author", c.author, PrintFromCommitter(c))
  }

  /** The form in which git hands over a commit. */
  function Print(c: Commit): Text {
    PrintLine("tree", c.tree, PrintAfterTree(c))
  }

  /** Every field survives normalisation, and merge parents come only after a first parent. */
  predicate Printable(c: Commit) {
    && Normal(c.tree) && Normal(c.author) && Normal(c.committer)
    && (forall p :: p in Parents(c) ==> Normal(p))
    && (c.mergeParents.Some? ==> c.parent.Some? && c.mergeParents.value != [])
  }

  function WithParents(parent: Option<Text>, merges: Option<seq<Text>>, parents: seq<Text>): (Option<Text>, Option<seq<Text>>)
    decreases |parents|
  {
    if parents == [] then (parent, merges)
    else
      var (p, m) := AddParent(parent, merges, parents[0]);
      WithParents(p, m, parents[1..])
  }

  lemma PrintLineConcat(tag: Text, contents: Text, rest: Text, more: Text)
    ensures PrintLine(tag, contents, rest) + more == PrintLine(tag, contents, rest + more)
  {
  }

  lemma {:induction false} ParsePrintedParents(parents: seq<Text>, author: Text, rest: Text, parent: Option<Text>, merges: Option<seq<Text>>)
    requires (forall i :: 0 <= i < |parents| ==> Normal(parents[i])) && Normal(author)
    ensures var (p, m) := WithParents(parent, merges, parents);
            ParseHeaders(PrintParents(parents) + PrintLine("author", author, rest), parent, merges)
            == Ok(Headers(p, m, author, rest))
    decreases |parents|
  {
    var tail := PrintLine("author", author, rest);
    if parents == [] {
      ReadPrintedLine("author", author, rest);
      assert [] + tail == tail;
    } else {
      var more := PrintParents(parents[1..]) + tail;
      PrintLineConcat("parent", parents[0], PrintParents(parents[1..]), tail);
      ReadPrintedLine("parent", parents[0], more);
      var (p, m) := AddParent(parent, merges, parents[0]);
      ParsePrintedParents(parents[1..], author, rest, p, m);
    }
  }

  lemma {:induction false} MergesInOrder(first: Text, merges: seq<Text>, more: seq<Text>)
    requires merges != []
    ensures WithParents(Some(first), Some(merges), more) == (Some(first), Some(merges + more))
    decreases |more|
  {
    if more == [] {
      assert merges + more == merges;
    } else {
      MergesInOrder(first, merges + [more[0]], more[1..]);
      assert merges + [more[0]] + more[1..] == merges + more;
    }
  }

  lemma ParentsReadBack(c: Commit)
    requires c.mergeParents.Some? ==> c.parent.Some? && c.mergeParents.value != []
    ensures WithParents(None, None, Parents(c)) == (c.parent, c.mergeParents)
  {
    var ps := Parents(c);
    if c.mergeParents.Some? {
      var first, merges := c.parent.value, c.mergeParents.value;
      assert ps[0] == first && ps[1..] == merges;
      assert [] + [merges[0]] == [merges[0]];
      MergesInOrder(first, [merges[0]], merges[1..]);
      assert [merges[0]] + merges[1..] == merges;
    } else if c.parent.Some? {
      assert ps == [c.parent.value] && ps[1..] == [];
    }
  }

  lemma ParsePrintedHeaders(c: Commit)
    requires Printable(c)
    ensures ParseHeaders(PrintAfterTree(c), None, None) ==
            Ok(Headers(c.parent, c.mergeParents, c.author, PrintFromCommitter(c)))
  {
    ParentsReadBack(c);
    ParsePrintedParents(Parents(c), c.author, PrintFromCommitter(c), None, None);
  }

  lemma ParsePrintedCommit(c: Commit)
    requires Printable(c)
    ensures ParseCommit(c.tree, PrintAfterTree(c)) == Ok(c)
  {
    assert ReadLine(PrintFromCommitter(c)) == Ok(Line("committer", c.committer, c.message)) by {
      ReadPrintedLine("committer", c.committer, c.message);
    }
    ParsePrintedHeaders(c);
  }

  lemma ParsePrinted(c: Commit)
    requires Printable(c)
    ensures Parse(Print(c)) == Ok(SignCommit(c))
  {
    ReadPrintedLine("tree", c.tree, PrintAfterTree(c));
    ParsePrintedCommit(c);
  }

  ghost predicate HeadersNormal(parent: Option<Text>, merges: Option<seq<Text>>) {
    && (parent.Some? ==> Normal(parent.value))
    && (merges.Some? ==> parent.Some? && merges.value != [] && forall p :: p in merges.value ==> Normal(p))
  }

  lemma {:induction false} ParsedHeadersNormal(s: Text, parent: Option<Text>, merges: Option<seq<Text>>)
    requires HeadersNormal(parent, merges) && ParseHeaders(s, parent, merges).Ok?
    ensures var h := ParseHeaders(s, parent, merges).value; HeadersNormal(h.parent, h.mergeParents) && Normal(h.author)
    decreases |s|
  {
    var line := ReadLine(s).value;
    ReadLineShrinks(s);
    if line.tag == "parent" {
      var (p, m) := AddParent(parent, merges, line.contents);
      ParsedHeadersNormal(line.rest, p, m);
    }
  }

  /** Whatever the parser accepts, it returns in printable form. */
  lemma ParsedIsPrintable(stdin: Text)
    requires Parse(stdin).Ok? && Parse(stdin).value.SignCommit?
    ensures Printable(Parse(stdin).value.commit)
    ensures Parse(stdin).value.commit.mergeParents.Some? <==> |Parents(Parse(stdin).value.commit)| >= 2
  {
    var first := ReadLine(stdin).value;
    ReadLineShrinks(stdin);
    ParsedHeadersNormal(first.rest, None, None);
    var h := ParseHeaders(first.rest, None, None).value;
    ReadLineShrinks(h.rest);
  }

  /**
   A commit survives printing and parsing, for any number of parents and any message,
   if and only if its fields are tokens joined by single spaces and merge parents occur
   only, and not emptily, after a first parent.
   */
  lemma RoundTripIff(c: Commit)
    ensures Parse(Print(c)) == Ok(SignCommit(c)) <==> Printable(c)
  {
    if Printable(c) { ParsePrinted(c); }
    if Parse(Print(c)) == Ok(SignCommit(c)) { ParsedIsPrintable(Print(c)); }
  }

  predicate PrintableTag(t: Tag) {
    Normal(t.target) && Normal(t.kind) && Normal(t.tag) && Normal(t.tagger)
  }

  function PrintFromTag(t: Tag): Text {
    PrintLine("tag", t.tag, PrintLine("tagger", t.tagger, t.message))
  }

  function PrintFromType(t: Tag): Text {
    PrintLine("type", t.kind, PrintFromTag(t))
  }

  function PrintTag(t: Tag): Text {
    PrintLine("object", t.target, PrintFromType(t))
  }

  lemma HeaderWords()
    ensures IsToken("type") && IsToken("tag") && IsToken("tagger")
  {
  }

  lemma ParsePrintedTag(t: Tag)
    requires PrintableTag(t)
    ensures ParseTag(t.target, PrintFromType(t)) == Ok(t)
  {
    HeaderWords();
    ParseTagLines(t.target, "type", t.kind, "tag", t.tag, "tagger", t.tagger, t.message);
  }

  lemma ParseTagLines(target: Text, w1: Text, kind: Text, w2: Text, tag: Text, w3: Text, tagger: Text, message: Text)
    requires IsToken(w1) && IsToken(w2) && IsToken(w3) && Normal(kind) && Normal(tag) && Normal(tagger)
    ensures ParseTag(target, PrintLine(w1, kind, PrintLine(w2, tag, PrintLine(w3, tagger, message))))
            == Ok(Tag(target, kind, tag, tagger, message))
  {
    var l3 := PrintLine(w3, tagger, message);
    var l2 := PrintLine(w2, tag, l3);
    ReadPrintedLine(w1, kind, l2);
    ReadPrintedLine(w2, tag, l3);
    ReadPrintedLine(w3, tagger, message);
    ParseTagFrom(target, PrintLine(w1, kind, l2), Line(w1, kind, l2), Line(w2, tag, l3), Line(w3, tagger, message));
  }

  lemma ParseTagFrom(target: Text, s: Text, kind: Line, tag: Line, tagger: Line)
    requires ReadLine(s) == Ok(kind) && ReadLine(kind.rest) == Ok(tag) && ReadLine(tag.rest) == Ok(tagger)
    ensures ParseTag(target, s) == Ok(Tag(target, kind.contents, tag.contents, tagger.contents, tagger.rest))
  {
  }

  lemma ParsedTagIsPrintable(stdin: Text)
    requires Parse(stdin).Ok? && Parse(stdin).value.SignTag?
    ensures PrintableTag(Parse(stdin).value.tag)
  {
    var l0 := ReadLine(stdin).value;
    ReadLineShrinks(stdin);
    var l1 := ReadLine(l0.rest).value;
    ReadLineShrinks(l0.rest);
    var l2 := ReadLine(l1.rest).value;
    ReadLineShrinks(l1.rest);
    ReadLineShrinks(l2.rest);
  }

  /** The same law for annotated tags. */
  lemma TagRoundTripIff(t: Tag)
    ensures Parse(PrintTag(t)) == Ok(SignTag(t)) <==> PrintableTag(t)
  {
    if PrintableTag(t) {
      ReadPrintedLine("object", t.target, PrintFromType(t));
      ParsePrintedTag(t);
    }
    if Parse(PrintTag(t)) == Ok(SignTag(t)) { ParsedTagIsPrintable(PrintTag(t)); }
  }
}
