/**
 A lane's record: an append-only file that many writers share and any of them may be killed in
 the middle of writing to.  A byte is the character of that code, so a line of text is the
 sequence of its UTF-8 bytes.
 */
module Record {
  type Bytes = string

  /** The byte a later writer ends an unfinished line with, which no finished line holds. */
  const TORN: char := '\0'
  const NEWLINE: char := '\n'

  // ---------------------------------------------------------------- text

  predicate Between(byte: char, low: int, high: int) {
    low <= byte as int <= high
  }

  /** How many bytes the first scalar value of `bytes` takes, or none where they encode no scalar value. */
  function Lead(bytes: Bytes): (width: nat)
    ensures width <= |bytes|
  {
    if bytes == "" then 0
    else if Between(bytes[0], 0x00, 0x7F) then 1
    else if Between(bytes[0], 0xC2, 0xDF) then if Follow(bytes, 1) then 2 else 0
    else if Between(bytes[0], 0xE0, 0xEF) then
      if Follow(bytes, 2)
         && (bytes[0] as int == 0xE0 ==> 0xA0 <= bytes[1] as int)
         && (bytes[0] as int == 0xED ==> bytes[1] as int <= 0x9F) then 3 else 0
    else if Between(bytes[0], 0xF0, 0xF4) then
      if Follow(bytes, 3)
         && (bytes[0] as int == 0xF0 ==> 0x90 <= bytes[1] as int)
         && (bytes[0] as int == 0xF4 ==> bytes[1] as int <= 0x8F) then 4 else 0
    else 0
  }

  /** Whether `count` continuation bytes follow the first byte. */
  predicate Follow(bytes: Bytes, count: nat) {
    count < |bytes| && forall i | 1 <= i <= count :: Between(bytes[i], 0x80, 0xBF)
  }

  predicate Utf8(bytes: Bytes)
    decreases |bytes|
  {
    bytes == "" || (Lead(bytes) > 0 && Utf8(bytes[Lead(bytes)..]))
  }

  /** What text encodes: any code point but the surrogates. */
  ghost predicate Scalar(value: int) {
    0 <= value < 0xD800 || 0xE000 <= value < 0x11_0000
  }

  /** The bytes that encode a scalar value (section 3 of RFC 3629), six bits to each byte after the first. */
  ghost function Encoding(value: int): Bytes
    requires Scalar(value)
  {
    var sixth := (count: nat) requires count < 0x40 => (0x80 + count) as char;
    if value < 0x80 then [value as char]
    else if value < 0x800 then [(0xC0 + value / 0x40) as char, sixth(value % 0x40)]
    else if value < 0x1_0000 then [(0xE0 + value / 0x1000) as char, sixth(value / 0x40 % 0x40), sixth(value % 0x40)]
    else
      [(0xF0 + value / 0x4_0000) as char, sixth(value / 0x1000 % 0x40), sixth(value / 0x40 % 0x40), sixth(value % 0x40)]
  }

  ghost function Encodings(values: seq<int>): Bytes
    requires forall value | value in values :: Scalar(value)
  {
    if values == [] then "" else Encoding(values[0]) + Encodings(values[1..])
  }

  ghost predicate Encodes(values: seq<int>, bytes: Bytes) {
    (forall value | value in values :: Scalar(value)) && Encodings(values) == bytes
  }

  /** Bytes are text exactly where some scalar values encode as them. */
  lemma {:induction false} TextIsEncoded(bytes: Bytes)
    ensures Utf8(bytes) <==> exists values :: Encodes(values, bytes)
    decreases |bytes|
  {
    hide Lead, Encoding;
    if bytes == "" {
      assert Encodes([], bytes);
    } else {
      if Utf8(bytes) {
        var width := Lead(bytes);
        var value := LeadIsEncoding(bytes);
        TextIsEncoded(bytes[width..]);
        var values :| Encodes(values, bytes[width..]);
        assert ([value] + values)[1..] == values && bytes == bytes[..width] + bytes[width..];
        assert Encodes([value] + values, bytes);
      }
      if values :| Encodes(values, bytes) {
        EncodingLeads(values[0], Encodings(values[1..]));
        var width := Lead(bytes);
        assert bytes[width..] == Encodings(values[1..]);
        assert Encodes(values[1..], bytes[width..]);
        TextIsEncoded(bytes[width..]);
      }
    }
  }

  lemma LeadIsEncoding(bytes: Bytes) returns (value: int)
    requires Lead(bytes) > 0
    ensures Scalar(value) && Encoding(value) == bytes[..Lead(bytes)]
  {
    hide Encoding;
    var width := Lead(bytes);
    if width == 1 {
      value := bytes[0] as int;
      EncodesOne(value);
      assert bytes[..1] == [bytes[0]];
    } else if width == 2 {
      value := EncodesTwo(bytes[0], bytes[1]);
      assert bytes[..2] == [bytes[0], bytes[1]];
    } else if width == 3 {
      value := EncodesThree(bytes[0], bytes[1], bytes[2]);
      assert bytes[..3] == [bytes[0], bytes[1], bytes[2]];
    } else {
      value := EncodesFour(bytes[0], bytes[1], bytes[2], bytes[3]);
      assert bytes[..4] == [bytes[0], bytes[1], bytes[2], bytes[3]];
    }
  }

  lemma EncodesOne(value: int)
    requires 0 <= value < 0x80
    ensures Scalar(value) && Encoding(value) == [value as char]
  {
  }

  lemma EncodesTwo(first: char, second: char) returns (value: int)
    requires Between(first, 0xC2, 0xDF) && Between(second, 0x80, 0xBF)
    ensures Scalar(value) && Encoding(value) == [first, second]
  {
    value := (first as int - 0xC0) * 0x40 + (second as int - 0x80);
    assert value / 0x40 == first as int - 0xC0 && value % 0x40 == second as int - 0x80;
  }

  lemma EncodesThree(first: char, second: char, third: char) returns (value: int)
    requires Between(first, 0xE0, 0xEF) && Between(second, 0x80, 0xBF) && Between(third, 0x80, 0xBF)
    requires (first as int == 0xE0 ==> 0xA0 <= second as int) && (first as int == 0xED ==> second as int <= 0x9F)
    ensures Scalar(value) && Encoding(value) == [first, second, third]
  {
    var high := (first as int - 0xE0) * 0x40 + (second as int - 0x80);
    value := high * 0x40 + (third as int - 0x80);
    assert value / 0x40 == high && value % 0x40 == third as int - 0x80;
    assert value / 0x1000 == first as int - 0xE0 && high % 0x40 == second as int - 0x80;
  }

  lemma EncodesFour(first: char, second: char, third: char, fourth: char) returns (value: int)
    requires Between(first, 0xF0, 0xF4) && Between(second, 0x80, 0xBF)
    requires Between(third, 0x80, 0xBF) && Between(fourth, 0x80, 0xBF)
    requires (first as int == 0xF0 ==> 0x90 <= second as int) && (first as int == 0xF4 ==> second as int <= 0x8F)
    ensures Scalar(value) && Encoding(value) == [first, second, third, fourth]
  {
    var high := (first as int - 0xF0) * 0x40 + (second as int - 0x80);
    var middle := high * 0x40 + (third as int - 0x80);
    value := middle * 0x40 + (fourth as int - 0x80);
    assert value / 0x40 == middle && value % 0x40 == fourth as int - 0x80;
    assert value / 0x1000 == high && middle % 0x40 == third as int - 0x80;
    assert value / 0x4_0000 == first as int - 0xF0 && high % 0x40 == second as int - 0x80;
  }

  lemma EncodingLeads(value: int, more: Bytes)
    requires Scalar(value)
    ensures Lead(Encoding(value) + more) == |Encoding(value)| > 0
  {
  }

  /** Text of one line whose every byte is a printable or blank ASCII character. */
  predicate Plain(text: Bytes) {
    forall byte | byte in text :: Between(byte, 0x01, 0x7F) && byte != NEWLINE
  }

  /** What a writer may append as one line. */
  predicate Writable(line: Bytes) {
    NEWLINE !in line && TORN !in line && Utf8(line)
  }

  lemma {:induction false} PlainIsWritable(text: Bytes)
    requires Plain(text)
    ensures Writable(text)
    decreases |text|
  {
    if text != "" {
      assert forall byte | byte in text[1..] :: byte in text;
      PlainIsWritable(text[1..]);
      assert text[0] in text;
    }
  }

  // ---------------------------------------------------------------- reading

  /** What a record's bytes come to: the lines their writers finished, and every piece that is no such line. */
  datatype Record = Record(lines: seq<Bytes>, unread: seq<Bytes>)

  const NOTHING := Record([], [])

  function Plus(first: Record, second: Record): Record {
    Record(first.lines + second.lines, first.unread + second.unread)
  }

  /** The length of the first line of `bytes` with its newline, or of all of them where none ends. */
  function FirstPiece(bytes: Bytes): (length: nat)
    ensures length <= |bytes|
    ensures bytes != "" ==> length > 0
  {
    if bytes == "" then 0 else if bytes[0] == NEWLINE then 1 else 1 + FirstPiece(bytes[1..])
  }

  /** `bytes` without the torn marks they end in. */
  function Unmarked(bytes: Bytes): (unmarked: Bytes)
    ensures unmarked <= bytes
  {
    if bytes == "" || bytes[|bytes| - 1] != TORN then bytes else Unmarked(bytes[..|bytes| - 1])
  }

  /** What one piece between newlines comes to. */
  function ReadPiece(piece: Bytes): Record {
    if piece == "" || piece[|piece| - 1] != NEWLINE then Record([], [piece])
    else
      var line := piece[..|piece| - 1];
      if TORN !in line then if Utf8(line) then Record([line], []) else Record([], [line])
      else if Unmarked(line) == "" then NOTHING
      else Record([], [Unmarked(line)])
  }

  /** The pieces of `bytes`, each up to its newline. */
  function Pieces(bytes: Bytes): seq<Bytes>
    decreases |bytes|
  {
    if bytes == "" then [] else [bytes[..FirstPiece(bytes)]] + Pieces(bytes[FirstPiece(bytes)..])
  }

  function ReadPieces(pieces: seq<Bytes>): Record {
    if pieces == [] then NOTHING else Plus(ReadPiece(pieces[0]), ReadPieces(pieces[1..]))
  }

  function ReadOf(bytes: Bytes): Record {
    ReadPieces(Pieces(bytes))
  }

  /** Reads the pieces in turn, pushing each to the lines or to what is unread. */
  method Read(bytes: Bytes) returns (record: Record)
    ensures record == ReadOf(bytes)
  {
    record := NOTHING;
    var at := 0;
    ghost var pieces := Pieces(bytes);
    while at < |bytes|
      invariant at <= |bytes|
      invariant pieces == Pieces(bytes[at..])
      invariant Plus(record, ReadPieces(pieces)) == ReadOf(bytes)
    {
      var end := EndOfPiece(bytes, at);
      var piece := bytes[at..end];
      assert bytes[at..][..end - at] == piece;
      assert bytes[at..][end - at..] == bytes[end..];
      assert pieces == [piece] + Pieces(bytes[end..]);
      ReadsFirstPiece(piece, Pieces(bytes[end..]));
      var read := ReadOnePiece(piece);
      PlusAssociates(record, read, ReadPieces(Pieces(bytes[end..])));
      record := Plus(record, read);
      at := end;
      pieces := Pieces(bytes[end..]);
    }
    assert bytes[at..] == "";
    assert Plus(record, NOTHING) == record;
  }

  lemma PlusAssociates(first: Record, second: Record, third: Record)
    ensures Plus(first, Plus(second, third)) == Plus(Plus(first, second), third)
  {
  }

  lemma ReadsFirstPiece(piece: Bytes, pieces: seq<Bytes>)
    ensures ReadPieces([piece] + pieces) == Plus(ReadPiece(piece), ReadPieces(pieces))
  {
  }

  method EndOfPiece(bytes: Bytes, at: nat) returns (end: nat)
    requires at < |bytes|
    ensures at < end <= |bytes| && FirstPiece(bytes[at..]) == end - at
  {
    end := at;
    while end < |bytes| && bytes[end] != NEWLINE
      invariant at <= end <= |bytes|
      invariant FirstPiece(bytes[at..]) == end - at + FirstPiece(bytes[end..])
    {
      assert bytes[end..][1..] == bytes[end + 1..];
      end := end + 1;
    }
    if end < |bytes| {
      end := end + 1;
    }
  }

  /** Reads one piece: its line where it is finished and text, and otherwise what its writer left of it. */
  method ReadOnePiece(piece: Bytes) returns (record: Record)
    requires piece != ""
    ensures record == ReadPiece(piece)
  {
    if piece[|piece| - 1] != NEWLINE {
      return Record([], [piece]);
    }
    var line := piece[..|piece| - 1];
    if TORN !in line {
      return if Utf8(line) then Record([line], []) else Record([], [line]);
    }
    var unfinished := line;
    while unfinished != "" && unfinished[|unfinished| - 1] == TORN
      invariant Unmarked(unfinished) == Unmarked(line)
      decreases |unfinished|
    {
      unfinished := unfinished[..|unfinished| - 1];
    }
    record := if unfinished != "" then Record([], [unfinished]) else NOTHING;
  }

  lemma ReadsOnePiece(piece: Bytes)
    ensures ReadPieces([piece]) == ReadPiece(piece)
  {
  }

  lemma {:induction false} ReadingDivides(first: seq<Bytes>, second: seq<Bytes>)
    ensures ReadPieces(first + second) == Plus(ReadPieces(first), ReadPieces(second))
  {
    if first == [] {
      assert first + second == second;
    } else {
      hide Plus, ReadPiece;
      assert (first + second)[1..] == first[1..] + second;
      ReadingDivides(first[1..], second);
      PlusAssociates(ReadPiece(first[0]), ReadPieces(first[1..]), ReadPieces(second));
    }
  }

  // ---------------------------------------------------------------- where what is read lies

  /** What lies between two newlines, with the one that ends it where one does. */
  ghost predicate PieceAt(bytes: Bytes, i: nat, j: nat) {
    && i < j <= |bytes| && (i == 0 || bytes[i - 1] == NEWLINE) && (j == |bytes| || bytes[j - 1] == NEWLINE)
    && forall k | i <= k < j - 1 :: bytes[k] != NEWLINE
  }

  ghost predicate HasPiece(bytes: Bytes, piece: Bytes) {
    exists i: nat, j: nat :: PieceAt(bytes, i, j) && bytes[i..j] == piece
  }

  lemma {:induction false} FirstPieceLies(bytes: Bytes)
    requires bytes != ""
    ensures PieceAt(bytes, 0, FirstPiece(bytes))
    ensures FirstPiece(bytes) < |bytes| ==> bytes[FirstPiece(bytes) - 1] == NEWLINE
  {
    if bytes[0] != NEWLINE && |bytes| > 1 {
      FirstPieceLies(bytes[1..]);
      forall k | 0 <= k < FirstPiece(bytes) - 1 ensures bytes[k] != NEWLINE {
        if k > 0 { assert bytes[1..][k - 1] == bytes[k]; }
      }
    }
  }

  lemma {:induction false} PiecesLie(bytes: Bytes, piece: Bytes)
    ensures piece in Pieces(bytes) <==> HasPiece(bytes, piece)
    decreases |bytes|
  {
    if bytes != "" {
      var first := FirstPiece(bytes);
      FirstPieceLies(bytes);
      assert bytes[0..first] == bytes[..first];
      PiecesLie(bytes[first..], piece);
      forall i: nat, j: nat | PieceAt(bytes[first..], i, j)
        ensures PieceAt(bytes, i + first, j + first) && bytes[i + first..j + first] == bytes[first..][i..j]
      {
        LaterPiece(bytes, first, i, j);
      }
      forall i: nat, j: nat | PieceAt(bytes, i, j)
        ensures (i == 0 && j == first)
             || (i >= first && PieceAt(bytes[first..], i - first, j - first)
                 && bytes[i..j] == bytes[first..][i - first..j - first])
      {
        FirstOrLater(bytes, first, i, j);
      }
    }
  }

  lemma LaterPiece(bytes: Bytes, first: nat, i: nat, j: nat)
    requires PieceAt(bytes, 0, first) && PieceAt(bytes[first..], i, j)
    ensures PieceAt(bytes, i + first, j + first) && bytes[i + first..j + first] == bytes[first..][i..j]
  {
    forall k | i + first <= k < j + first - 1
      ensures bytes[k] != NEWLINE
    {
      assert bytes[first..][k - first] == bytes[k];
    }
  }

  lemma FirstOrLater(bytes: Bytes, first: nat, i: nat, j: nat)
    requires PieceAt(bytes, 0, first) && PieceAt(bytes, i, j)
    ensures (i == 0 && j == first)
         || (i >= first && PieceAt(bytes[first..], i - first, j - first)
             && bytes[i..j] == bytes[first..][i - first..j - first])
  {
    if i >= first {
      forall k | i - first <= k < j - first - 1
        ensures bytes[first..][k] != NEWLINE
      {
        assert bytes[first + k] != NEWLINE;
      }
    }
  }

  lemma {:induction false} ReadOfSomePiece(pieces: seq<Bytes>, text: Bytes)
    ensures text in ReadPieces(pieces).lines <==> exists piece :: piece in pieces && text in ReadPiece(piece).lines
    ensures text in ReadPieces(pieces).unread <==> exists piece :: piece in pieces && text in ReadPiece(piece).unread
  {
    hide ReadPiece;
    if pieces != [] {
      ReadOfSomePiece(pieces[1..], text);
      assert pieces == [pieces[0]] + pieces[1..];
    }
  }

  /** A line is read exactly where some bytes between newlines are text, are ended, and hold no torn mark. */
  lemma LinesMean(bytes: Bytes, line: Bytes)
    ensures line in ReadOf(bytes).lines <==> HasPiece(bytes, line + [NEWLINE]) && TORN !in line && Utf8(line)
  {
    hide Utf8;
    ReadOfSomePiece(Pieces(bytes), line);
    PiecesLie(bytes, line + [NEWLINE]);
    forall piece ensures line in ReadPiece(piece).lines <==> piece == line + [NEWLINE] && TORN !in line && Utf8(line) {
      assert (line + [NEWLINE])[..|line|] == line;
    }
  }

  ghost predicate AllTorn(marks: Bytes) {
    forall i | 0 <= i < |marks| :: marks[i] == TORN
  }

  /** A line that ends in torn marks, or in none, and what comes before them. */
  ghost predicate BeforeMarks(left: Bytes, line: Bytes) {
    left != "" && left[|left| - 1] != TORN && exists marks :: line == left + marks && AllTorn(marks)
  }

  lemma BeforeMarksMeans(left: Bytes, line: Bytes)
    ensures BeforeMarks(left, line) <==> left != "" && left == Unmarked(line)
  {
    hide Unmarked;
    UnmarkedLeaves(line);
    assert line == Unmarked(line) + line[|Unmarked(line)|..];
    if BeforeMarks(left, line) {
      var marks :| line == left + marks && AllTorn(marks);
      UnmarkedIs(left, marks);
    }
  }

  /** What a piece leaves unread: all of it where nobody ended it, and else what comes before its torn marks. */
  ghost predicate Leaves(piece: Bytes, left: Bytes) {
    || (NEWLINE !in piece && left == piece)
    || (piece == left + [NEWLINE] && TORN !in left && !Utf8(left))
    || exists line :: piece == line + [NEWLINE] && TORN in line && BeforeMarks(left, line)
  }

  /** A piece is given as unread exactly where some bytes between newlines leave it. */
  lemma UnreadMeans(bytes: Bytes, left: Bytes)
    ensures left in ReadOf(bytes).unread
            <==> exists i: nat, j: nat :: PieceAt(bytes, i, j) && Leaves(bytes[i..j], left)
  {
    hide Utf8, Leaves, ReadPiece;
    ReadOfSomePiece(Pieces(bytes), left);
    forall piece ensures piece in Pieces(bytes) <==> HasPiece(bytes, piece) { PiecesLie(bytes, piece); }
    forall i: nat, j: nat | PieceAt(bytes, i, j)
      ensures bytes[i..j] in Pieces(bytes) && (left in ReadPiece(bytes[i..j]).unread <==> Leaves(bytes[i..j], left))
    {
      assert HasPiece(bytes, bytes[i..j]);
      PieceLeaves(bytes[i..j], left);
    }
  }

  lemma PieceLeaves(piece: Bytes, left: Bytes)
    requires piece != "" && NEWLINE !in piece[..|piece| - 1]
    ensures left in ReadPiece(piece).unread <==> Leaves(piece, left)
  {
    hide Utf8, Unmarked, BeforeMarks;
    var line, last := piece[..|piece| - 1], piece[|piece| - 1];
    assert piece == line + [last];
    forall other | piece == other + [NEWLINE] ensures other == line { assert piece[..|other|] == other; }
    BeforeMarksMeans(left, line);
  }

  lemma {:induction false} UnmarkedLeaves(bytes: Bytes)
    ensures var unmarked := Unmarked(bytes);
            && (unmarked == "" || unmarked[|unmarked| - 1] != TORN)
            && AllTorn(bytes[|unmarked|..])
  {
    if bytes != "" && bytes[|bytes| - 1] == TORN {
      UnmarkedLeaves(bytes[..|bytes| - 1]);
      var unmarked := Unmarked(bytes);
      assert bytes[|unmarked|..] == bytes[..|bytes| - 1][|unmarked|..] + [TORN];
    }
  }

  lemma {:induction false} UnmarkedIs(left: Bytes, marks: Bytes)
    requires left != "" && left[|left| - 1] != TORN && AllTorn(marks)
    ensures Unmarked(left + marks) == left
    decreases |marks|
  {
    if marks == "" {
      assert left + marks == left;
    } else {
      assert (left + marks)[..|left + marks| - 1] == left + marks[..|marks| - 1];
      UnmarkedIs(left, marks[..|marks| - 1]);
    }
  }

  // ---------------------------------------------------------------- appending

  predicate Unfinished(bytes: Bytes) {
    bytes != "" && bytes[|bytes| - 1] != NEWLINE
  }

  /** What a writer hands to the file to add `line` after `bytes`. */
  function Entry(bytes: Bytes, line: Bytes): Bytes {
    (if Unfinished(bytes) then [TORN, NEWLINE] else "") + line + [NEWLINE]
  }

  /** One append, which its writer finished or was killed `lost` bytes before the end of. */
  datatype Write = Write(line: Bytes, lost: nat)

  /** How much of `entry` bytes reaches the file when the last `lost` do not. */
  function Kept(entry: nat, lost: nat): (kept: nat)
    ensures kept <= entry
    ensures kept == entry <==> lost == 0 || entry == 0
  {
    entry - if lost < entry then lost else entry
  }

  function Appended(bytes: Bytes, write: Write): Bytes {
    var entry := Entry(bytes, write.line);
    bytes + entry[..Kept(|entry|, write.lost)]
  }

  lemma AppendsEntry(bytes: Bytes, write: Write)
    ensures var entry := Entry(bytes, write.line);
            Kept(|entry|, write.lost) <= |entry| && Appended(bytes, write) == bytes + entry[..Kept(|entry|, write.lost)]
  {
  }

  function After(bytes: Bytes, writes: seq<Write>): Bytes
    decreases |writes|
  {
    if writes == [] then bytes else After(Appended(bytes, writes[0]), writes[1..])
  }

  /** The lines whose writing finished, in order. */
  function Finished(writes: seq<Write>): seq<Bytes> {
    if writes == [] then []
    else (if writes[0].lost == 0 then [writes[0].line] else []) + Finished(writes[1..])
  }

  /** The record's file, written one whole entry at a time under its lock. */
  class RecordFile {
    var bytes: Bytes

    constructor (bytes: Bytes)
      ensures this.bytes == bytes
    {
      this.bytes := bytes;
    }

    /** Appends a line in one write, of which the last `lost` bytes never reach the file. */
    method Append(line: Bytes, lost: nat)
      requires Writable(line)
      modifies this
      ensures bytes == Appended(old(bytes), Write(line, lost))
      ensures ReadOf(bytes).lines == old(ReadOf(bytes).lines) + if lost == 0 then [line] else []
    {
      hide ReadOf, Writable, Kept, Appended;
      AppendAddsItsLine(bytes, Write(line, lost));
      AppendsEntry(bytes, Write(line, lost));
      var unfinished := false;
      if |bytes| != 0 {
        var last := bytes[|bytes| - 1];
        unfinished := last != NEWLINE;
      }
      var entry := "";
      if unfinished {
        entry := entry + [TORN, NEWLINE];
      }
      entry := entry + line;
      entry := entry + [NEWLINE];
      assert entry == Entry(bytes, line);
      bytes := bytes + entry[..Kept(|entry|, lost)];
    }
  }

  // ---------------------------------------------------------------- the log the file stands for

  /** What a file stands for: the finished lines, the pieces nobody finished, and what follows the last newline. */
  datatype Log = Log(finished: seq<Bytes>, torn: seq<Bytes>, open: Bytes)

  /** How many bytes follow the last newline. */
  function Open(bytes: Bytes): (count: nat)
    ensures count <= |bytes|
    ensures count > 0 <==> Unfinished(bytes)
  {
    if !Unfinished(bytes) then 0 else 1 + Open(bytes[..|bytes| - 1])
  }

  /** What follows the last newline. */
  function Tail(bytes: Bytes): Bytes {
    bytes[|bytes| - Open(bytes)..]
  }

  /** What ends in the last newline. */
  function Closed(bytes: Bytes): Bytes {
    bytes[..|bytes| - Open(bytes)]
  }

  lemma {:induction false} OpenIsLastLine(bytes: Bytes)
    ensures bytes == Closed(bytes) + Tail(bytes)
    ensures !Unfinished(Closed(bytes))
    ensures NEWLINE !in Tail(bytes)
    decreases |bytes|
  {
    if Unfinished(bytes) {
      var shorter := bytes[..|bytes| - 1];
      OpenIsLastLine(shorter);
      assert Closed(bytes) == Closed(shorter);
      assert Tail(bytes) == Tail(shorter) + [bytes[|bytes| - 1]];
    }
  }

  /** The piece an open line leaves once it is torn, where its marks are not all of it. */
  function TornOf(open: Bytes): seq<Bytes> {
    if Unmarked(open) == "" then [] else [Unmarked(open)]
  }

  function LogOf(bytes: Bytes): Log {
    var closed := ReadOf(Closed(bytes));
    Log(closed.lines, closed.unread, Tail(bytes))
  }

  /**
   One append as the log sees it: a write that reached past the torn mark closes what was open as torn, and
   a finished one adds its line.
   */
  function Step(log: Log, write: Write): Log {
    var mark := if log.open == "" then 0 else 2;
    var kept := Kept(mark + |write.line| + 1, write.lost);
    if kept < mark then log.(open := log.open + if kept == 1 then [TORN] else "")
    else
      var torn := log.torn + TornOf(log.open);
      if write.lost == 0 then Log(log.finished + [write.line], torn, "")
      else Log(log.finished, torn, write.line[..kept - mark])
  }

  /** What follows the last newline is told by where it ends. */
  lemma {:induction false} OpenIsUnique(closed: Bytes, open: Bytes)
    requires !Unfinished(closed) && NEWLINE !in open
    ensures Open(closed + open) == |open|
    decreases |open|
  {
    if open == "" {
      assert closed + open == closed;
    } else {
      var shorter := open[..|open| - 1];
      assert open == shorter + [open[|open| - 1]];
      assert closed + open == (closed + shorter) + [open[|open| - 1]];
      assert (closed + open)[..|closed + open| - 1] == closed + shorter;
      OpenIsUnique(closed, shorter);
    }
  }

  lemma LogIsUnique(closed: Bytes, open: Bytes)
    requires !Unfinished(closed) && NEWLINE !in open
    ensures LogOf(closed + open) == Log(ReadOf(closed).lines, ReadOf(closed).unread, open)
  {
    OpenIsUnique(closed, open);
    assert Closed(closed + open) == closed;
    assert Tail(closed + open) == open;
  }

  /** A file reads as what it stands for. */
  lemma FileReadsAsItsLog(bytes: Bytes)
    ensures var log := LogOf(bytes);
            ReadOf(bytes) == Record(log.finished, log.torn + if log.open == "" then [] else [log.open])
  {
    var open, closed := Tail(bytes), Closed(bytes);
    OpenIsLastLine(bytes);
    LinesDivide(closed, open);
    OpenIsUnread(open);
  }

  lemma OpenIsUnread(open: Bytes)
    requires NEWLINE !in open
    ensures ReadOf(open) == Record([], if open == "" then [] else [open])
  {
    if open != "" {
      FirstPieceOfLine(open);
      assert open[..|open|] == open && open[|open|..] == "";
      assert Pieces(open) == [open];
      ReadsOnePiece(open);
    }
  }

  /** Reading divides where a line ends. */
  lemma LinesDivide(closed: Bytes, more: Bytes)
    requires !Unfinished(closed)
    ensures ReadOf(closed + more) == Plus(ReadOf(closed), ReadOf(more))
  {
    PiecesDivide(closed, more);
    ReadingDivides(Pieces(closed), Pieces(more));
  }

  lemma {:induction false} PiecesDivide(closed: Bytes, more: Bytes)
    requires !Unfinished(closed)
    ensures Pieces(closed + more) == Pieces(closed) + Pieces(more)
    decreases |closed|
  {
    if closed == "" {
      assert closed + more == more;
    } else {
      var first := FirstPiece(closed);
      FirstPieceIsUnique(closed, more);
      PiecesDivide(closed[first..], more);
      FirstPieceDivides(closed, more);
      Associates([closed[..first]], Pieces(closed[first..]), Pieces(more));
    }
  }

  lemma FirstPieceDivides(closed: Bytes, more: Bytes)
    requires closed != "" && FirstPiece(closed + more) == FirstPiece(closed)
    ensures Pieces(closed + more) == [closed[..FirstPiece(closed)]] + Pieces(closed[FirstPiece(closed)..] + more)
  {
    var first := FirstPiece(closed);
    assert (closed + more)[..first] == closed[..first];
    assert (closed + more)[first..] == closed[first..] + more;
  }

  lemma Associates<T>(first: seq<T>, second: seq<T>, third: seq<T>)
    ensures (first + second) + third == first + (second + third)
  {
  }

  lemma {:induction false} FirstPieceIsUnique(closed: Bytes, more: Bytes)
    requires closed != "" && closed[|closed| - 1] == NEWLINE
    ensures FirstPiece(closed + more) == FirstPiece(closed)
    ensures !Unfinished(closed[FirstPiece(closed)..])
    decreases |closed|
  {
    if closed[0] != NEWLINE {
      assert (closed + more)[1..] == closed[1..] + more;
      FirstPieceIsUnique(closed[1..], more);
      assert closed[1..][FirstPiece(closed[1..])..] == closed[FirstPiece(closed)..];
    }
  }

  lemma {:induction false} FirstPieceOfLine(line: Bytes)
    requires NEWLINE !in line
    ensures FirstPiece(line) == |line|
    ensures FirstPiece(line + [NEWLINE]) == |line| + 1
    decreases |line|
  {
    if line != "" {
      assert line[0] in line;
      assert (line + [NEWLINE])[1..] == line[1..] + [NEWLINE];
      FirstPieceOfLine(line[1..]);
    }
  }

  /** One piece with its newline is read on its own. */
  lemma OnePiece(line: Bytes)
    requires NEWLINE !in line
    ensures ReadOf(line + [NEWLINE]) == ReadPiece(line + [NEWLINE])
  {
    var piece := line + [NEWLINE];
    FirstPieceOfLine(line);
    assert piece[..|piece|] == piece && piece[|piece|..] == "";
    assert Pieces(piece) == [piece];
    ReadsOnePiece(piece);
  }

  lemma MarkedIsUnmarked(bytes: Bytes)
    ensures Unmarked(bytes + [TORN]) == Unmarked(bytes)
  {
  }

  /** Ending an open line with the torn mark reads as the piece nobody finished, and never as a line. */
  lemma MarkingTears(open: Bytes)
    requires NEWLINE !in open && open != ""
    ensures ReadOf(open + [TORN, NEWLINE]) == Record([], TornOf(open))
  {
    var line := open + [TORN];
    assert open + [TORN, NEWLINE] == line + [NEWLINE];
    assert (line + [NEWLINE])[..|line|] == line;
    assert line[|open|] == TORN;
    OnePiece(line);
    MarkedIsUnmarked(open);
  }

  /** One append to the file is one step of the log it stands for, wherever the writer was killed. */
  lemma AppendIsStep(bytes: Bytes, write: Write)
    requires Writable(write.line)
    ensures LogOf(Appended(bytes, write)) == Step(LogOf(bytes), write)
  {
    var open, closed := Tail(bytes), Closed(bytes);
    OpenIsLastLine(bytes);
    if open == "" {
      assert bytes == closed;
      AppendAfterLine(closed, write);
    } else {
      AppendAfterOpen(closed, open, write);
    }
  }

  lemma WhatReachesAClosedFile(bytes: Bytes, write: Write)
    requires !Unfinished(bytes)
    ensures Appended(bytes, write) == bytes + (write.line + [NEWLINE])[..Kept(|write.line| + 1, write.lost)]
  {
  }

  /** What a line, or the first `kept` bytes of it with its newline, comes to after the last newline. */
  function Written(finished: seq<Bytes>, torn: seq<Bytes>, line: Bytes, kept: nat): Log {
    if kept > |line| then Log(finished + [line], torn, "") else Log(finished, torn, line[..kept])
  }

  lemma AppendAfterLine(closed: Bytes, write: Write)
    requires Writable(write.line) && !Unfinished(closed)
    ensures LogOf(Appended(closed, write)) == Step(Log(ReadOf(closed).lines, ReadOf(closed).unread, ""), write)
  {
    var read, kept := ReadOf(closed), Kept(|write.line| + 1, write.lost);
    var result := Written(read.lines, read.unread, write.line, kept);
    assert LogOf(Appended(closed, write)) == result by {
      WhatReachesAClosedFile(closed, write);
      StepAfterMark(closed, read, write.line, kept);
    }
    assert Step(Log(read.lines, read.unread, ""), write) == result by {
      StepFromClosed(read.lines, read.unread, write);
    }
  }

  lemma StepFromClosed(finished: seq<Bytes>, torn: seq<Bytes>, write: Write)
    ensures Step(Log(finished, torn, ""), write)
            == Written(finished, torn, write.line, Kept(|write.line| + 1, write.lost))
  {
  }

  lemma StepFromOpen(finished: seq<Bytes>, torn: seq<Bytes>, open: Bytes, write: Write)
    requires open != ""
    ensures var kept := Kept(|write.line| + 3, write.lost);
            Step(Log(finished, torn, open), write)
            == if kept < 2 then Log(finished, torn, open + if kept == 1 then [TORN] else "")
               else Written(finished, torn + TornOf(open), write.line, kept - 2)
  {
  }

  /**
   What an append leaves in a file whose last line is open: part of the torn mark, or the mark and part of
   the line.
   */
  lemma WhatReachesAnOpenFile(bytes: Bytes, write: Write)
    requires Unfinished(bytes)
    ensures var kept := Kept(|write.line| + 3, write.lost);
            Appended(bytes, write)
            == if kept < 2 then bytes + if kept == 1 then [TORN] else ""
               else bytes + [TORN, NEWLINE] + (write.line + [NEWLINE])[..kept - 2]
  {
  }

  lemma AppendAfterOpen(closed: Bytes, open: Bytes, write: Write)
    requires Writable(write.line) && !Unfinished(closed) && NEWLINE !in open && open != ""
    ensures LogOf(Appended(closed + open, write)) == Step(Log(ReadOf(closed).lines, ReadOf(closed).unread, open), write)
  {
    hide LogOf, Step, Appended, ReadOf, Writable, TornOf;
    var read, kept := ReadOf(closed), Kept(|write.line| + 3, write.lost);
    var result := if kept < 2 then Log(read.lines, read.unread, open + if kept == 1 then [TORN] else "")
                  else Written(read.lines, read.unread + TornOf(open), write.line, kept - 2);
    assert LogOf(Appended(closed + open, write)) == result by {
      WhatReachesAnOpenFile(closed + open, write);
      if kept < 2 {
        var mark: Bytes := if kept == 1 then [TORN] else "";
        assert closed + open + mark == closed + (open + mark);
        LogIsUnique(closed, open + mark);
      } else {
        assert closed + open + [TORN, NEWLINE] == closed + (open + [TORN, NEWLINE]);
        StepOverOpen(closed, open, read, write.line, kept - 2);
      }
    }
    assert Step(Log(read.lines, read.unread, open), write) == result by {
      StepFromOpen(read.lines, read.unread, open, write);
    }
  }

  lemma StepOverOpen(closed: Bytes, open: Bytes, read: Record, line: Bytes, kept: nat)
    requires Writable(line) && !Unfinished(closed) && NEWLINE !in open && open != "" && kept <= |line| + 1
    requires read == ReadOf(closed)
    ensures LogOf(closed + (open + [TORN, NEWLINE]) + (line + [NEWLINE])[..kept])
            == Written(read.lines, read.unread + TornOf(open), line, kept)
  {
    var marked := closed + (open + [TORN, NEWLINE]);
    var closing := Record(read.lines, read.unread + TornOf(open));
    assert ReadOf(marked) == closing by {
      LinesDivide(closed, open + [TORN, NEWLINE]);
      MarkingTears(open);
      assert read.lines + [] == read.lines;
    }
    StepAfterMark(marked, closing, line, kept);
  }

  /** What a line, or the part of it that was written, comes to after a newline. */
  lemma StepAfterMark(closed: Bytes, read: Record, line: Bytes, kept: nat)
    requires Writable(line) && !Unfinished(closed) && kept <= |line| + 1
    requires read == ReadOf(closed)
    ensures LogOf(closed + (line + [NEWLINE])[..kept]) == Written(read.lines, read.unread, line, kept)
  {
    var piece := line + [NEWLINE];
    if kept == |piece| {
      assert piece[..kept] == piece;
      assert ReadOf(closed + piece) == Record(read.lines + [line], read.unread) by {
        assert piece[..|piece| - 1] == line;
        OnePiece(line);
        LinesDivide(closed, piece);
        assert read.unread + [] == read.unread;
      }
      assert closed + piece + "" == closed + piece;
      LogIsUnique(closed + piece, "");
    } else {
      assert piece[..kept] == line[..kept];
      LogIsUnique(closed, line[..kept]);
    }
  }

  function Steps(log: Log, writes: seq<Write>): Log
    decreases |writes|
  {
    if writes == [] then log else Steps(Step(log, writes[0]), writes[1..])
  }

  ghost predicate AllWritable(writes: seq<Write>) {
    forall write | write in writes :: Writable(write.line)
  }

  lemma {:induction false} AppendsAreSteps(bytes: Bytes, writes: seq<Write>)
    requires AllWritable(writes)
    ensures LogOf(After(bytes, writes)) == Steps(LogOf(bytes), writes)
    decreases |writes|
  {
    if writes != [] {
      AppendIsStep(bytes, writes[0]);
      assert AllWritable(writes[1..]);
      AppendsAreSteps(Appended(bytes, writes[0]), writes[1..]);
    }
  }

  lemma {:induction false} StepsFinishLines(log: Log, writes: seq<Write>)
    ensures Steps(log, writes).finished == log.finished + Finished(writes)
    decreases |writes|
  {
    if writes != [] {
      StepsFinishLines(Step(log, writes[0]), writes[1..]);
    }
  }

  /**
   After any run of appends, each cut anywhere or finished, the record's lines are exactly those whose
   writing finished, in order, after what it held.
   */
  lemma RecordKeepsFinishedLines(bytes: Bytes, writes: seq<Write>)
    requires AllWritable(writes)
    ensures ReadOf(After(bytes, writes)).lines == ReadOf(bytes).lines + Finished(writes)
  {
    AppendsAreSteps(bytes, writes);
    StepsFinishLines(LogOf(bytes), writes);
    FileReadsAsItsLog(bytes);
    FileReadsAsItsLog(After(bytes, writes));
  }

  /** One append adds its line exactly where its writing finished. */
  lemma AppendAddsItsLine(bytes: Bytes, write: Write)
    requires Writable(write.line)
    ensures ReadOf(Appended(bytes, write)).lines == ReadOf(bytes).lines + if write.lost == 0 then [write.line] else []
  {
    AppendIsStep(bytes, write);
    FileReadsAsItsLog(bytes);
    FileReadsAsItsLog(Appended(bytes, write));
  }

  // ---------------------------------------------------------------- torn lines

  /**
   Whether a piece, its torn marks aside, is the beginning of one write that was cut, or was in the file
   before any of them.
   */
  ghost predicate OfOneWrite(piece: Bytes, before: Log, writes: seq<Write>) {
    || (exists held | held in before.torn + [before.open] :: Unmarked(piece) == Unmarked(held))
    || (exists write | write in writes :: write.lost > 0 && Unmarked(piece) <= write.line)
  }

  ghost predicate AllOfOneWrite(log: Log, before: Log, writes: seq<Write>) {
    forall piece | piece in log.torn + [log.open] && Unmarked(piece) != "" :: OfOneWrite(piece, before, writes)
  }

  lemma UnmarkedTwice(bytes: Bytes)
    ensures Unmarked(Unmarked(bytes)) == Unmarked(bytes)
  {
  }

  lemma {:induction false} StepsStayOfOneWrite(log: Log, before: Log, earlier: seq<Write>, later: seq<Write>)
    requires AllOfOneWrite(log, before, earlier)
    requires AllWritable(later)
    ensures AllOfOneWrite(Steps(log, later), before, earlier + later)
    decreases |later|
  {
    if later == [] {
      assert earlier + later == earlier;
    } else {
      var write := later[0];
      var next := Step(log, write);
      forall piece | piece in next.torn + [next.open] && Unmarked(piece) != ""
        ensures OfOneWrite(piece, before, earlier + [write])
      {
        StepStaysOfOneWrite(log, before, earlier, write, piece);
      }
      assert earlier + [write] + later[1..] == earlier + later;
      StepsStayOfOneWrite(next, before, earlier + [write], later[1..]);
    }
  }

  lemma StepStaysOfOneWrite(log: Log, before: Log, earlier: seq<Write>, write: Write, piece: Bytes)
    requires AllOfOneWrite(log, before, earlier)
    requires Writable(write.line)
    requires var next := Step(log, write); piece in next.torn + [next.open]
    requires Unmarked(piece) != ""
    ensures OfOneWrite(piece, before, earlier + [write])
  {
    hide Writable, Unmarked;
    var next := Step(log, write);
    UnmarkedTwice(log.open);
    MarkedIsUnmarked(log.open);
    assert log.open + "" == log.open;
    if piece in log.torn {
      assert piece in log.torn + [log.open];
      assert OfOneWrite(piece, before, earlier);
    } else if Unmarked(piece) == Unmarked(log.open) {
      assert log.open in log.torn + [log.open];
      assert OfOneWrite(log.open, before, earlier);
    } else {
      assert piece == next.open && write.lost > 0 && piece <= write.line;
      assert write in earlier + [write];
    }
  }

  /**
   Torn lines never join: whatever is appended, and cut wherever, each piece read as unfinished begins a
   single cut write, or was in the file before.
   */
  lemma TornLinesNeverJoin(bytes: Bytes, writes: seq<Write>)
    requires AllWritable(writes)
    ensures forall piece | piece in ReadOf(After(bytes, writes)).unread && Unmarked(piece) != "" ::
              OfOneWrite(piece, LogOf(bytes), writes)
  {
    var log := LogOf(bytes);
    forall piece | piece in log.torn + [log.open] ensures OfOneWrite(piece, log, []) {
    }
    AppendsAreSteps(bytes, writes);
    StepsStayOfOneWrite(log, log, [], writes);
    assert [] + writes == writes;
    FileReadsAsItsLog(After(bytes, writes));
  }
}
