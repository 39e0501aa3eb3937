/** The chunked stream splitter of the rsync engine (src/stashd/engines/rsync.py:219-231). */
module Splitter {

  predicate Breaks(c: char) { c == '\r' || c == '\n' }

  function Init<T>(s: seq<T>): seq<T>
    requires s != []
  {
    s[..|s| - 1]
  }

  function Last<T>(s: seq<T>): T
    requires s != []
  {
    s[|s| - 1]
  }

  /** One more character: it closes the piece being read, or goes on it. */
  function Feed(pieces: seq<string>, c: char): (fed: seq<string>)
    requires pieces != []
    ensures fed != []
  {
    if Breaks(c) then pieces + [""] else Init(pieces) + [Last(pieces) + [c]]
  }

  /** re.split(r"[\r\n]", text): the pieces between the breaks, at least one. */
  function Pieces(text: string): (pieces: seq<string>)
    ensures pieces != []
  {
    if text == "" then [""] else Feed(Pieces(Init(text)), Last(text))
  }

  function NonEmpty(pieces: seq<string>): seq<string> {
    if pieces == [] then []
    else NonEmpty(Init(pieces)) + (if Last(pieces) == "" then [] else [Last(pieces)])
  }

  function Concat(chunks: seq<string>): string {
    if chunks == [] then "" else Concat(Init(chunks)) + Last(chunks)
  }

  /** The last piece of a text has no break in it, so it stands alone. */
  lemma {:induction false} LastPieceIsWhole(text: string)
    ensures Pieces(Last(Pieces(text))) == [Last(Pieces(text))]
  {
    if text != "" && !Breaks(Last(text)) {
      LastPieceIsWhole(Init(text));
      var whole := Last(Pieces(text));
      assert Init(whole) == Last(Pieces(Init(text)));
    }
  }

  lemma FeedBehind(front: seq<string>, back: seq<string>, c: char)
    requires back != []
    ensures Feed(front + back, c) == front + Feed(back, c)
  {
    assert Init(front + back) == front + Init(back);
    assert Last(front + back) == Last(back);
  }

  /** The pieces of a text and of what follows it share only the piece where they meet. */
  lemma {:induction false} PiecesMeet(text: string, done: seq<string>, buffer: string, more: string)
    requires Pieces(text) == done + [buffer]
    ensures Pieces(text + more) == done + Pieces(buffer + more)
  {
    if more == "" {
      LastPieceIsWhole(text);
      assert Last(done + [buffer]) == buffer;
      assert text + more == text && buffer + more == buffer;
    } else {
      PiecesMeet(text, done, buffer, Init(more));
      assert Init(text + more) == text + Init(more);
      assert Init(buffer + more) == buffer + Init(more);
      FeedBehind(done, Pieces(buffer + Init(more)), Last(more));
    }
  }

  lemma {:induction false} NonEmptyOfConcat(a: seq<string>, b: seq<string>)
    ensures NonEmpty(a + b) == NonEmpty(a) + NonEmpty(b)
  {
    if b == [] {
      assert a + b == a;
    } else {
      NonEmptyOfConcat(a, Init(b));
      assert Init(a + b) == a + Init(b);
      var x := if Last(b) == "" then [] else [Last(b)];
      assert NonEmpty(a) + NonEmpty(Init(b)) + x == NonEmpty(a) + (NonEmpty(Init(b)) + x);
    }
  }

  /** What the loop knows: the pieces of the text so far are those dealt with and the one still growing. */
  ghost predicate Caught(text: string, done: seq<string>, buffer: string, updates: seq<string>) {
    Pieces(text) == done + [buffer] && updates == NonEmpty(done)
  }

  lemma CaughtUp(text: string, done: seq<string>, buffer: string, updates: seq<string>, chunk: string,
                 parts: seq<string>)
    requires Caught(text, done, buffer, updates) && parts == Pieces(buffer + chunk)
    ensures Caught(text + chunk, done + Init(parts), Last(parts), updates + NonEmpty(Init(parts)))
  {
    PiecesMeet(text, done, buffer, chunk);
    assert done + parts == done + Init(parts) + [Last(parts)];
    NonEmptyOfConcat(done, Init(parts));
  }

  /** _updates: `received` is what stream.read(512) returns in turn; the first empty chunk ends the stream.
      However the text is cut, what is yielded is the non-empty pieces of the whole of it. */
  method Updates(received: seq<string>) returns (updates: seq<string>)
    requires received != [] && Last(received) == "" && "" !in Init(received)
    ensures updates == NonEmpty(Pieces(Concat(received)))
  {
    var buffer := "";
    updates := [];
    var i := 0;
    ghost var done: seq<string> := [];
    assert received[..0] == [];
    while true
      invariant 0 <= i < |received|
      invariant Caught(Concat(received[..i]), done, buffer, updates)
      decreases |received| - i
    {
      var chunk := received[i];
      assert Init(received[..i + 1]) == received[..i];
      if chunk == "" {
        assert received[..i + 1] == received;
        assert Concat(received) == Concat(received[..i]) + "" == Concat(received[..i]);
        break;
      }
      CaughtUp(Concat(received[..i]), done, buffer, updates, chunk, Pieces(buffer + chunk));
      buffer := buffer + chunk;
      var parts := Pieces(buffer);
      buffer := Last(parts);
      parts := Init(parts);
      updates := updates + NonEmpty(parts);
      done := done + parts;
      i := i + 1;
    }
    assert Init(done + [buffer]) == done;
    if buffer != "" {
      updates := updates + [buffer];
    }
  }

  /** What the pieces are: none holds a break, and with one break put back between neighbours they are
      the text again, but for which of the two characters each break was. */
  lemma {:induction false} PiecesDescribe(text: string)
    ensures forall p, c :: p in Pieces(text) && c in p ==> c != '\r' && c != '\n'
    ensures Rejoin(Pieces(text)) == Normalised(text)
  {
    if text != "" {
      PiecesDescribe(Init(text));
      var before := Pieces(Init(text));
      if Breaks(Last(text)) {
        assert Init(before + [""]) == before;
      } else {
        var piece := Last(before) + [Last(text)];
        assert Last(before) in before;
        assert Init(Init(before) + [piece]) == Init(before);
        if |before| > 1 {
          assert Rejoin(Init(before) + [piece]) == Rejoin(Init(before)) + "\n" + piece;
          assert Rejoin(before) == Rejoin(Init(before)) + "\n" + Last(before);
        }
      }
    }
  }

  function Rejoin(pieces: seq<string>): string
    requires pieces != []
  {
    if |pieces| == 1 then pieces[0] else Rejoin(Init(pieces)) + "\n" + Last(pieces)
  }

  function Normalised(text: string): string {
    if text == "" then "" else Normalised(Init(text)) + (if Last(text) == '\r' then "\n" else [Last(text)])
  }
}
