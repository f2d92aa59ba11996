/**
 * util.NewSplitFn: the bufio.SplitFunc that cuts a byte stream at a
 * separator byte and hands out whatever follows the last separator as a
 * final token.
 */
module UtilScanner {
  import opened Wrappers
  import opened Text

  /** The error a split function returns: none, bufio.ErrFinalToken or io.EOF. */
  datatype SplitErr = NoErr | ErrFinalToken | EOF

  /** The three results of a bufio.SplitFunc; a nil token is None. */
  datatype Split = Split(advance: nat, token: Option<seq<byte>>, err: SplitErr)

  /** The function NewSplitFn(sep) returns, applied to the buffered data. */
  function SplitFn(sep: byte, data: seq<byte>, atEOF: bool): (r: Split)
    ensures r.advance <= |data|
    ensures atEOF ==> r.advance == 0
    ensures r.err == NoErr && r.token.Some? ==>
      r.advance >= 1 && data == r.token.value + [sep] + data[r.advance..] && sep !in r.token.value
    ensures r.err == NoErr && r.token.None? ==> !atEOF && r.advance == 0 && sep !in data
    ensures r.err == ErrFinalToken <==> atEOF && data != []
    ensures r.err == ErrFinalToken ==> r.token == Some(data)
    ensures r.err == EOF <==> atEOF && data == []
  {
    if atEOF then
      if |data| > 0 then Split(0, Some(data), ErrFinalToken) else Split(0, None, EOF)
    else
      var i := IndexOf(data, sep);
      if i > -1 then
        assert data == data[..i] + [sep] + data[i + 1..];
        Split(i + 1, Some(data[..i]), NoErr)
      else Split(0, None, NoErr)
  }

  /**
   * The tokens a bufio.Scanner using SplitFn yields when it holds the whole
   * input: it cuts tokens while a separator is buffered, and at the end of
   * input the remainder, if any, is the final token.
   */
  function Tokens(sep: byte, data: seq<byte>): seq<seq<byte>>
    decreases |data|
  {
    var r := SplitFn(sep, data, false);
    if r.token.Some? then [r.token.value] + Tokens(sep, data[r.advance..])
    else
      var last := SplitFn(sep, data, true);
      if last.err == ErrFinalToken then [last.token.value] else []
  }

  /** The pieces of bytes.Split without a trailing empty piece. */
  function DropTrailingEmpty(parts: seq<seq<byte>>): seq<seq<byte>>
    requires |parts| >= 1
  {
    if parts[|parts| - 1] == [] then parts[..|parts| - 1] else parts
  }

  /**
   * The scanner yields exactly the separator-delimited pieces of the input,
   * except that an empty piece after a final separator is not yielded.
   */
  lemma {:induction false} TokensAreSplitPieces(sep: byte, data: seq<byte>)
    ensures Tokens(sep, data) == DropTrailingEmpty(Text.Split(data, sep))
    decreases |data|
  {
    var i := IndexOf(data, sep);
    if i > -1 {
      var rest := data[i + 1..];
      TokensAreSplitPieces(sep, rest);
      SplitAtFirst(sep, data, i);
      DropAfterHead(data[..i], Text.Split(rest, sep));
    } else {
      SplitNoSep(data, sep);
    }
  }

  lemma SplitAtFirst(sep: byte, data: seq<byte>, i: int)
    requires i == IndexOf(data, sep) && i > -1
    ensures Tokens(sep, data) == [data[..i]] + Tokens(sep, data[i + 1..])
    ensures Text.Split(data, sep) == [data[..i]] + Text.Split(data[i + 1..], sep)
  {
    var rest := data[i + 1..];
    assert data == data[..i] + [sep] + rest;
    SplitPrefix(data[..i], sep, rest);
  }

  lemma DropAfterHead(a: seq<byte>, parts: seq<seq<byte>>)
    requires |parts| >= 1
    ensures DropTrailingEmpty([a] + parts) == [a] + DropTrailingEmpty(parts)
  {
    var all := [a] + parts;
    assert all[|all| - 1] == parts[|parts| - 1];
    assert all[..|all| - 1] == [a] + parts[..|parts| - 1];
  }
}
