/**
 The templates a package's manifest names its archive and its paths with, filled the way
 cargo-binstall fills them (`xtask/src/bundle.rs`).
 */
module Templates {
  import opened Wrappers

  /** What a package's templates are filled with. */
  datatype Values = Values(name: string, version: string, repo: Option<string>, target: string, bin: Option<string>)

  datatype Variable = Name | Version | Repo | Target | Bin | BinaryExt

  datatype TemplateError = Escaped | Unbalanced | Unknown | Unfilled

  // ---------------------------------------------------------------- variables

  predicate IsSpace(c: char) {
    var code := c as int;
    || 0x09 <= code <= 0x0D || code == 0x20 || code == 0x85 || code == 0xA0 || code == 0x1680
    || 0x2000 <= code <= 0x200A || code == 0x2028 || code == 0x2029 || code == 0x202F || code == 0x205F
    || code == 0x3000
  }

  function Trimmed(word: string): string {
    if word == "" then ""
    else if IsSpace(word[0]) then Trimmed(word[1..])
    else if IsSpace(word[|word| - 1]) then Trimmed(word[..|word| - 1])
    else word
  }

  function Named(word: string): Option<Variable> {
    match word
    case "name" => Some(Name)
    case "version" => Some(Version)
    case "repo" => Some(Repo)
    case "target" => Some(Target)
    case "bin" => Some(Bin)
    case "binary-ext" => Some(BinaryExt)
    case _ => None
  }

  predicate Contains(text: string, part: string) {
    part <= text || (text != "" && Contains(text[1..], part))
  }

  function ValueOf(variable: Variable, values: Values): Option<string> {
    match variable
    case Name => Some(values.name)
    case Version => Some(values.version)
    case Repo => values.repo
    case Target => Some(values.target)
    case Bin => values.bin
    case BinaryExt => Some(if Contains(values.target, "windows") then ".exe" else "")
  }

  /** What a word between braces is filled with. */
  function Filling(word: string, values: Values): Result<string, TemplateError> {
    match Named(Trimmed(word))
    case None => Err(Unknown)
    case Some(variable) =>
      match ValueOf(variable, values)
      case None => Err(Unfilled)
      case Some(value) => Ok(value)
  }

  // ---------------------------------------------------------------- filling

  const BRACES: set<char> := {'{', '}'}

  predicate Without(text: string, wanted: set<char>) {
    forall i :: 0 <= i < |text| ==> text[i] !in wanted
  }

  /** Where the first of some characters is. */
  function FirstOf(text: string, wanted: set<char>): (at: Option<nat>)
    ensures at.None? ==> Without(text, wanted)
    ensures at.Some? ==> at.value < |text| && text[at.value] in wanted && Without(text[..at.value], wanted)
  {
    if text == "" then None
    else if text[0] in wanted then Some(0)
    else
      match FirstOf(text[1..], wanted)
      case None => None
      case Some(at) => Some(at + 1)
  }

  /** The word a brace opens and what follows the brace that closes it. */
  function Opened(from: string): (split: Option<(string, string)>)
    requires from != ""
    ensures split.Some? ==> |split.value.1| < |from|
  {
    if from[0] != '{' then None
    else
      match FirstOf(from[1..], {'}'})
      case None => None
      case Some(at) => if '{' in from[1..at + 1] then None else Some((from[1..at + 1], from[at + 2..]))
  }

  function Prefixed(before: string, filled: Result<string, TemplateError>): Result<string, TemplateError> {
    if filled.Ok? then Ok(before + filled.value) else filled
  }

  lemma NothingBefore(filled: Result<string, TemplateError>)
    ensures Prefixed("", filled) == filled
  {
    if filled.Ok? { assert "" + filled.value == filled.value; }
  }

  lemma JoinedInTurn(before: string, between: string, filled: Result<string, TemplateError>)
    ensures Prefixed(before, Prefixed(between, filled)) == Prefixed(before + between, filled)
  {
    if filled.Ok? { assert before + (between + filled.value) == before + between + filled.value; }
  }

  /** A template without backslashes, filled. */
  function FilledFrom(rest: string, values: Values): Result<string, TemplateError>
    decreases |rest|
  {
    match FirstOf(rest, BRACES)
    case None => Ok(rest)
    case Some(brace) =>
      match Opened(rest[brace..])
      case None => Err(Unbalanced)
      case Some(split) =>
        match Filling(split.0, values)
        case Err(error) => Err(error)
        case Ok(value) => Prefixed(rest[..brace] + value, FilledFrom(split.1, values))
  }

  function Filled(template: string, values: Values): Result<string, TemplateError> {
    if '\\' in template then Err(Escaped) else FilledFrom(template, values)
  }

  /** Fills a template brace by brace. */
  method Render(template: string, values: Values) returns (rendered: Result<string, TemplateError>)
    ensures rendered == Filled(template, values)
  {
    hide Filling, Opened, FirstOf;
    if '\\' in template { return Err(Escaped); }
    var filled, rest := "", template;
    NothingBefore(FilledFrom(template, values));
    var brace := FirstOf(rest, BRACES);
    while brace.Some?
      invariant brace == FirstOf(rest, BRACES)
      invariant FilledFrom(template, values) == Prefixed(filled, FilledFrom(rest, values))
      decreases |rest|
    {
      var before, from := rest[..brace.value], rest[brace.value..];
      var split := Opened(from);
      if split.None? { return Err(Unbalanced); }
      var value := Filling(split.value.0, values);
      if value.Err? { return Err(value.error); }
      JoinedInTurn(filled, before + value.value, FilledFrom(split.value.1, values));
      filled := filled + (before + value.value);
      rest := split.value.1;
      brace := FirstOf(rest, BRACES);
    }
    return Ok(filled + rest);
  }

  // ---------------------------------------------------------------- what a word means

  /** Nothing but Unicode's white space. */
  ghost predicate Blank(text: string) {
    forall c | c in text ::
      || c in "\t\n\U{B}\U{C}\r \U{85}\U{A0}\U{1680}"
      || c in "\U{2000}\U{2001}\U{2002}\U{2003}\U{2004}\U{2005}\U{2006}\U{2007}\U{2008}\U{2009}\U{200A}"
      || c in "\U{2028}\U{2029}\U{202F}\U{205F}\U{3000}"
  }

  /** The text names a variable, and this is the value it has. */
  ghost predicate Says(text: string, values: Values, value: Option<string>) {
    || (text == "name" && value == Some(values.name))
    || (text == "version" && value == Some(values.version))
    || (text == "repo" && value == values.repo)
    || (text == "target" && value == Some(values.target))
    || (text == "bin" && value == values.bin)
    || (text == "binary-ext"
        && value == Some(if Within(values.target, "windows") then ".exe" else ""))
  }

  /** The word is such a text with blanks around it or none. */
  ghost predicate WordSays(word: string, values: Values, value: Option<string>) {
    exists before, text, after ::
      word == before + text + after && Blank(before) && Blank(after) && Says(text, values, value)
  }

  lemma SpacesAre(c: char)
    ensures IsSpace(c) <==> Blank([c])
  {
    assert c in [c];
  }

  ghost predicate Within(text: string, part: string) {
    exists before, after :: text == before + part + after
  }

  lemma {:induction false} ContainsMeans(text: string, part: string)
    ensures Contains(text, part) <==> Within(text, part)
  {
    hide Within;
    WithinHere(text, part);
    if text != "" {
      ContainsMeans(text[1..], part);
      WithinLater(text, part);
    } else {
      WithinNothing(part);
    }
  }

  lemma WithinHere(text: string, part: string)
    ensures part <= text ==> Within(text, part)
  {
    if part <= text { assert text == "" + part + text[|part|..]; }
  }

  lemma WithinNothing(part: string)
    ensures Within("", part) ==> part == ""
  {
  }

  lemma WithinLater(text: string, part: string)
    requires text != ""
    ensures Within(text[1..], part) ==> Within(text, part)
    ensures Within(text, part) ==> part <= text || Within(text[1..], part)
  {
    if before, after :| text[1..] == before + part + after {
      assert text == [text[0]] + text[1..];
      assert text == ([text[0]] + before) + part + after;
    }
    if before, after :| text == before + part + after {
      if before == "" {
        assert text[..|part|] == part;
      } else {
        assert text[1..] == before[1..] + part + after;
      }
    }
  }

  lemma BlankWithin(text: string, more: string)
    ensures Blank(text + more) <==> Blank(text) && Blank(more)
  {
    forall c ensures c in text + more <==> c in text || c in more {}
  }

  lemma {:induction false} TrimmedIsWithin(word: string) returns (before: string, after: string)
    ensures word == before + Trimmed(word) + after && Blank(before) && Blank(after)
    ensures Trimmed(word) != "" ==> !Blank([Trimmed(word)[0]]) && !Blank([Trimmed(word)[|Trimmed(word)| - 1]])
    decreases |word|
  {
    hide IsSpace, Blank;
    if word == "" {
      before, after := "", "";
      BlankWithin("", "");
      assert Blank("") by { NothingIsBlank(); }
    } else if IsSpace(word[0]) {
      SpacesAre(word[0]);
      before, after := TrimmedIsWithin(word[1..]);
      BlankWithin([word[0]], before);
      assert word == [word[0]] + (before + Trimmed(word[1..]) + after);
      assert Trimmed(word) == Trimmed(word[1..]);
      before := [word[0]] + before;
    } else if IsSpace(word[|word| - 1]) {
      SpacesAre(word[|word| - 1]);
      before, after := TrimmedIsWithin(word[..|word| - 1]);
      BlankWithin(after, [word[|word| - 1]]);
      assert word == before + Trimmed(word[..|word| - 1]) + after + [word[|word| - 1]];
      assert Trimmed(word) == Trimmed(word[..|word| - 1]);
      after := after + [word[|word| - 1]];
    } else {
      before, after := "", "";
      assert Blank("") by { NothingIsBlank(); }
      SpacesAre(word[0]);
      SpacesAre(word[|word| - 1]);
    }
  }

  lemma NothingIsBlank()
    ensures Blank("")
  {
  }

  lemma {:induction false} TrimsBlanks(before: string, text: string, after: string)
    requires Blank(before) && Blank(after)
    requires text != "" && !IsSpace(text[0]) && !IsSpace(text[|text| - 1])
    ensures Trimmed(before + text + after) == text
    decreases |before| + |after|
  {
    hide IsSpace, Blank;
    var word := before + text + after;
    if before != "" {
      assert before == [before[0]] + before[1..];
      BlankWithin([before[0]], before[1..]);
      SpacesAre(before[0]);
      assert word[0] == before[0] && word[1..] == before[1..] + text + after;
      TrimsBlanks(before[1..], text, after);
    } else if after != "" {
      var last := |after| - 1;
      assert after == after[..last] + [after[last]];
      BlankWithin(after[..last], [after[last]]);
      SpacesAre(after[last]);
      assert word[0] == text[0] && word[|word| - 1] == after[last]
             && word[..|word| - 1] == before + text + after[..last];
      TrimsBlanks(before, text, after[..last]);
    } else {
      assert word == text;
    }
  }

  /** What names a variable begins and ends with a letter. */
  lemma SaidIsTrimmed(text: string, values: Values, value: Option<string>)
    requires Says(text, values, value)
    ensures text != "" && !IsSpace(text[0]) && !IsSpace(text[|text| - 1])
  {
  }

  lemma TextSays(text: string, values: Values, value: Option<string>)
    ensures Says(text, values, value) <==> Named(text).Some? && ValueOf(Named(text).value, values) == value
  {
    ContainsMeans(values.target, "windows");
  }

  /**
   A word is filled with the value of the variable it names, blanks aside; refused where it names none, or
   one with no value.
   */
  lemma FillingMeans(word: string, values: Values)
    ensures forall value :: Filling(word, values) == Ok(value) <==> WordSays(word, values, Some(value))
    ensures Filling(word, values) == Err(Unfilled) <==> WordSays(word, values, None)
    ensures Filling(word, values) == Err(Unknown) <==> forall value :: !WordSays(word, values, value)
  {
    hide Says, Named, ValueOf, Trimmed, Blank;
    forall value ensures WordSays(word, values, value) <==> Says(Trimmed(word), values, value) {
      if before, text, after :|
        word == before + text + after && Blank(before) && Blank(after) && Says(text, values, value)
      {
        SaidIsTrimmed(text, values, value);
        TrimsBlanks(before, text, after);
      }
      if Says(Trimmed(word), values, value) {
        var before, after := TrimmedIsWithin(word);
        assert word == before + Trimmed(word) + after;
      }
    }
    forall value ensures Says(Trimmed(word), values, value) <==>
        Named(Trimmed(word)).Some? && ValueOf(Named(Trimmed(word)).value, values) == value
    {
      TextSays(Trimmed(word), values, value);
    }
    if Named(Trimmed(word)).Some? {
      var value := ValueOf(Named(Trimmed(word)).value, values);
      assert WordSays(word, values, value);
    }
  }

  // ---------------------------------------------------------------- what filling means

  /** A piece of a template: text as it is, or a word between braces. */
  datatype Piece = Text(text: string) | Word(word: string)

  /** A piece that can be filled: text has no brace, and a word none either and a variable with a value. */
  predicate Fillable(piece: Piece, values: Values) {
    match piece
    case Text(text) => Without(text, BRACES)
    case Word(word) => Without(word, BRACES) && Filling(word, values).Ok?
  }

  function Written(pieces: seq<Piece>): string {
    if pieces == [] then ""
    else (match pieces[0] case Text(text) => text case Word(word) => "{" + word + "}") + Written(pieces[1..])
  }

  function FilledPiece(piece: Piece, values: Values): string
    requires Fillable(piece, values)
  {
    match piece
    case Text(text) => text
    case Word(word) => Filling(word, values).value
  }

  function FilledPieces(pieces: seq<Piece>, values: Values): string
    requires AllFillable(pieces, values)
  {
    if pieces == [] then "" else FilledPiece(pieces[0], values) + FilledPieces(pieces[1..], values)
  }

  predicate AllFillable(pieces: seq<Piece>, values: Values) {
    forall i :: 0 <= i < |pieces| ==> Fillable(pieces[i], values)
  }

  lemma {:induction false} FirstOfIs(text: string, wanted: set<char>, at: nat)
    requires at < |text| && text[at] in wanted && Without(text[..at], wanted)
    ensures FirstOf(text, wanted) == Some(at)
  {
  }

  lemma NoneOfIs(text: string, wanted: set<char>)
    requires Without(text, wanted)
    ensures FirstOf(text, wanted) == None
  {
  }

  /** Text before anything is filled as it is. */
  lemma FilledAfterText(text: string, rest: string, values: Values)
    requires Without(text, BRACES)
    ensures FilledFrom(text + rest, values) == Prefixed(text, FilledFrom(rest, values))
  {
    hide Filling, Opened, FirstOf;
    var whole := text + rest;
    var first := FirstOf(rest, BRACES);
    if first.None? {
      NoneOfIs(whole, BRACES);
    } else {
      var brace := first.value;
      assert whole[..|text| + brace] == text + rest[..brace] && whole[|text| + brace..] == rest[brace..];
      FirstOfIs(whole, BRACES, |text| + brace);
      var split := Opened(rest[brace..]);
      if split.Some? && Filling(split.value.0, values).Ok? {
        var value, more := Filling(split.value.0, values).value, FilledFrom(split.value.1, values);
        if more.Ok? { assert text + rest[..brace] + value + more.value == text + (rest[..brace] + value + more.value); }
      }
    }
  }

  /** A word between braces is filled with its value. */
  lemma FilledWord(word: string, rest: string, values: Values)
    requires Fillable(Word(word), values)
    ensures FilledFrom("{" + word + "}" + rest, values)
            == Prefixed(Filling(word, values).value, FilledFrom(rest, values))
  {
    hide Filling, FirstOf;
    var whole, after := "{" + word + "}" + rest, word + "}" + rest;
    FirstOfIs(whole, BRACES, 0);
    assert whole[0..] == whole && whole[1..] == after && after[..|word|] == word;
    FirstOfIs(after, {'}'}, |word|);
    assert whole[1..|word| + 1] == word && whole[|word| + 2..] == rest;
    assert whole[..0] + Filling(word, values).value == Filling(word, values).value;
  }

  lemma {:induction false} FilledWritten(pieces: seq<Piece>, values: Values)
    requires AllFillable(pieces, values)
    ensures FilledFrom(Written(pieces), values) == Ok(FilledPieces(pieces, values))
  {
    hide Filling, FilledFrom;
    if pieces == [] {
      FilledNothing(values);
    } else {
      FilledWritten(pieces[1..], values);
      match pieces[0] {
        case Text(text) => FilledAfterText(text, Written(pieces[1..]), values);
        case Word(word) => FilledWord(word, Written(pieces[1..]), values);
      }
    }
  }

  lemma FilledNothing(values: Values)
    ensures FilledFrom("", values) == Ok("")
  {
  }

  /** What a brace opens and closes is the brace, the word, the brace that closes it and what follows. */
  lemma OpenedIsWritten(from: string)
    requires from != "" && Opened(from).Some?
    ensures from == "{" + Opened(from).value.0 + "}" + Opened(from).value.1
    ensures Without(Opened(from).value.0, BRACES)
  {
    hide FirstOf;
    var at := FirstOf(from[1..], {'}'}).value;
    assert from[1..][..at] == from[1..at + 1] && from[1..][at] == from[at + 1];
    assert from == [from[0]] + from[1..at + 1] + [from[at + 1]] + from[at + 2..];
  }

  /** The pieces a template that can be filled is written with. */
  lemma {:induction false} PiecesOf(rest: string, values: Values) returns (pieces: seq<Piece>)
    requires FilledFrom(rest, values).Ok?
    ensures AllFillable(pieces, values) && Written(pieces) == rest
    decreases |rest|
  {
    hide Filling, Opened, FirstOf;
    var first := FirstOf(rest, BRACES);
    if first.None? {
      pieces := [Text(rest)];
      assert pieces[1..] == [];
    } else {
      var from := rest[first.value..];
      OpenedIsWritten(from);
      var split := Opened(from).value;
      var more := PiecesOf(split.1, values);
      pieces := [Text(rest[..first.value]), Word(split.0)] + more;
      assert pieces[1..] == [Word(split.0)] + more && pieces[1..][1..] == more;
      assert rest == rest[..first.value] + from;
    }
  }

  /** Some pieces, all of which can be filled, are written as `template` and filled as `filled`. */
  ghost predicate FillsAs(template: string, values: Values, pieces: seq<Piece>, filled: string) {
    AllFillable(pieces, values) && Written(pieces) == template && FilledPieces(pieces, values) == filled
  }

  /**
   A template is filled exactly where it has no backslash and is text and braced words that each name a
   variable with a value: as that text with each word's value in its place.
   */
  lemma FillingIsExact(template: string, values: Values, filled: string)
    ensures Filled(template, values) == Ok(filled) <==>
              '\\' !in template && exists pieces :: FillsAs(template, values, pieces, filled)
  {
    hide Fillable, FilledFrom, Written, FilledPieces;
    if Filled(template, values) == Ok(filled) {
      var pieces := PiecesOf(template, values);
      FilledWritten(pieces, values);
      assert FillsAs(template, values, pieces, filled);
    }
    if pieces :| FillsAs(template, values, pieces, filled) {
      FilledWritten(pieces, values);
    }
  }

  // ---------------------------------------------------------------- what refusing means

  /** What is left of a template is wrong where it begins: a brace that is not one of a word's, or a word not filled. */
  ghost predicate WrongAt(rest: string, values: Values, error: TemplateError) {
    || (rest != "" && rest[0] == '}' && error == Unbalanced)
    || (error == Unbalanced && rest != "" && rest[0] == '{'
        && (|| (forall i | 0 < i < |rest| :: rest[i] != '}')
            || exists i :: 0 < i < |rest| && rest[i] == '{' && forall j | 0 < j < i :: rest[j] != '}'))
    || (exists word, after ::
          rest == "{" + word + "}" + after && Without(word, BRACES) && Filling(word, values) == Err(error))
  }

  /** Some pieces can be filled, and what follows them in the template is wrong. */
  ghost predicate GoesWrong(template: string, values: Values, pieces: seq<Piece>, rest: string, error: TemplateError) {
    AllFillable(pieces, values) && template == Written(pieces) + rest && WrongAt(rest, values, error)
  }

  /** Where what is left begins with a brace, it is filled as far as the word it opens, or refused for it. */
  lemma WrongIsRefused(rest: string, values: Values, error: TemplateError)
    requires WrongAt(rest, values, error)
    ensures FilledFrom(rest, values) == Err(error)
  {
    hide Filling;
    if rest != "" && rest[0] in BRACES {
      FirstOfIs(rest, BRACES, 0);
      assert rest[0..] == rest;
      if rest[0] == '{' {
        NotOpenedMeans(rest);
        forall word, after | rest == "{" + word + "}" + after && Without(word, BRACES) { OpenedIs(word, after); }
      }
    }
  }

  lemma NotOpenedMeans(rest: string)
    requires rest != "" && rest[0] == '{'
    ensures Opened(rest).None? <==>
            || (forall i | 0 < i < |rest| :: rest[i] != '}')
            || exists i :: 0 < i < |rest| && rest[i] == '{' && forall j | 0 < j < i :: rest[j] != '}'
  {
    hide FirstOf;
    var inside := rest[1..];
    var closing := FirstOf(inside, {'}'});
    if closing.Some? {
      var at := closing.value;
      assert inside[..at] == rest[1..at + 1] && inside[at] == rest[at + 1];
      forall j | 0 < j < at + 1 ensures rest[j] != '}' { assert inside[..at][j - 1] == rest[j]; }
      if '{' in rest[1..at + 1] {
        var k :| 0 <= k < at && rest[1..at + 1][k] == '{';
        assert rest[k + 1] == '{';
      }
      if i :| 0 < i < |rest| && rest[i] == '{' && forall j | 0 < j < i :: rest[j] != '}' {
        assert i <= at + 1;
        assert rest[1..at + 1][i - 1] == '{';
      }
    } else {
      forall i | 0 < i < |rest| ensures rest[i] != '}' { assert inside[i - 1] == rest[i]; }
    }
  }

  lemma OpenedIs(word: string, after: string)
    requires Without(word, BRACES)
    ensures Opened("{" + word + "}" + after) == Some((word, after))
  {
    hide FirstOf;
    var rest := "{" + word + "}" + after;
    var inside := rest[1..];
    assert inside == word + "}" + after && inside[..|word|] == word && inside[|word|] == '}';
    FirstOfIs(inside, {'}'}, |word|);
    assert rest[1..|word| + 1] == word && rest[|word| + 2..] == after;
  }

  /** A template that is refused goes wrong after pieces that can be filled. */
  lemma {:induction false} RefusedGoesWrong(rest: string, values: Values) returns (pieces: seq<Piece>, wrong: string)
    requires FilledFrom(rest, values).Err?
    ensures GoesWrong(rest, values, pieces, wrong, FilledFrom(rest, values).error)
    decreases |rest|
  {
    hide Filling, Opened, FirstOf;
    var brace := FirstOf(rest, BRACES).value;
    var before, from := rest[..brace], rest[brace..];
    assert rest == before + from && from[0] == rest[brace];
    var split := Opened(from);
    pieces, wrong := [Text(before)], from;
    assert Written(pieces) == before by { assert pieces[1..] == []; }
    if split.None? {
      if from[0] == '{' { NotOpenedMeans(from); }
      assert WrongAt(from, values, Unbalanced);
    } else {
      OpenedIsWritten(from);
      var word := split.value.0;
      if Filling(word, values).Err? {
        assert from == "{" + word + "}" + split.value.1;
      } else {
        var more, last := RefusedGoesWrong(split.value.1, values);
        pieces, wrong := [Text(before), Word(word)] + more, last;
        assert pieces[1..] == [Word(word)] + more && pieces[1..][1..] == more;
        assert Written(pieces) == before + ("{" + word + "}" + Written(more));
        assert rest == Written(pieces) + wrong;
        assert FilledFrom(rest, values).error == FilledFrom(split.value.1, values).error;
      }
    }
  }

  lemma {:induction false} FilledBefore(pieces: seq<Piece>, rest: string, values: Values)
    requires AllFillable(pieces, values)
    ensures FilledFrom(Written(pieces) + rest, values)
            == Prefixed(FilledPieces(pieces, values), FilledFrom(rest, values))
  {
    hide Filling, FilledFrom;
    if pieces == [] {
      NothingBefore(FilledFrom(rest, values));
      assert Written(pieces) + rest == rest;
    } else {
      var first, more := Written([pieces[0]]), Written(pieces[1..]) + rest;
      FilledBefore(pieces[1..], rest, values);
      assert [pieces[0]][1..] == [];
      match pieces[0] {
        case Text(text) =>
          assert Written(pieces) + rest == text + more;
          FilledAfterText(text, more, values);
        case Word(word) =>
          assert Written(pieces) + rest == "{" + word + "}" + more;
          FilledWord(word, more, values);
      }
      JoinedInTurn(FilledPiece(pieces[0], values), FilledPieces(pieces[1..], values), FilledFrom(rest, values));
    }
  }

  /**
   A template is refused for a backslash, and otherwise for the first thing in it that is wrong, and for
   nothing else.
   */
  lemma RefusedForTheFirst(template: string, values: Values, error: TemplateError)
    ensures Filled(template, values) == Err(error) <==>
            if '\\' in template then error == Escaped
            else exists pieces, rest :: GoesWrong(template, values, pieces, rest, error)
  {
    hide FilledFrom, GoesWrong;
    if '\\' !in template {
      if FilledFrom(template, values) == Err(error) {
        var pieces, rest := RefusedGoesWrong(template, values);
      }
      if pieces, rest :| GoesWrong(template, values, pieces, rest, error) {
        WrongWasRefused(template, values, pieces, rest, error);
      }
    }
  }

  lemma WrongWasRefused(template: string, values: Values, pieces: seq<Piece>, rest: string, error: TemplateError)
    requires GoesWrong(template, values, pieces, rest, error)
    ensures FilledFrom(template, values) == Err(error)
  {
    hide FilledFrom;
    FilledBefore(pieces, rest, values);
    WrongIsRefused(rest, values, error);
  }
}
