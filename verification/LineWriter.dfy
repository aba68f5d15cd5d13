/** The line-splitting writer of internal/jobs/logger.go. */
module LineWriter {
  import opened LineBytes
  import opened LineCut

  class Logger {
    var lineBuf: string
    var written: seq<string>   // lines handed to writeLine, oldest first

    ghost predicate Valid()
      reads this
    {
      '\n' !in lineBuf
    }

    constructor ()
      ensures Valid() && lineBuf == "" && written == []
    {
      lineBuf, written := "", [];
    }

    // logger.go:105-125
    method Write(p: string)
      requires Valid()
      modifies this
      ensures Valid()
      ensures written == old(written) + ChompAll(RawLines(old(lineBuf) + p))
      ensures lineBuf == Rest(old(lineBuf) + p)
      ensures exists lines :: written == old(written) + lines && HasLines(old(lineBuf) + p, lines, lineBuf)
    {
      ghost var all := lineBuf + p;
      lineBuf := lineBuf + p;
      var lines: seq<string> := [];
      while true
        invariant lines + ChompAll(RawLines(lineBuf)) == ChompAll(RawLines(all))
        invariant Rest(lineBuf) == Rest(all)
        invariant written == old(written)
        decreases |lineBuf|
      {
        var i := IndexNewline(lineBuf);
        if i == |lineBuf| {
          assert lineBuf[..i] == lineBuf;
          NoNewline(lineBuf);
          break;
        }
        FirstLineChomped(lineBuf, i);
        lines := lines + [Chomp(lineBuf[..i])];
        lineBuf := lineBuf[i + 1..];
      }
      RestUncut(all);
      CutHasLines(all);
      written := written + lines;
    }

    // logger.go:157-168; a leftover line keeps a trailing carriage return.
    method Close()
      requires Valid()
      modifies this
      ensures Valid() && lineBuf == ""
      ensures written == old(written) + (if old(lineBuf) == "" then [] else [old(lineBuf)])
    {
      var leftover := "";
      if |lineBuf| > 0 {
        leftover := lineBuf;
        lineBuf := "";
      }
      if leftover != "" {
        written := written + [leftover];
      }
    }
  }

  /** Buffer and lines after a series of writes, as Write's contract gives them one by one. */
  function AfterWrites(chunks: seq<string>): (string, seq<string>) {
    if chunks == [] then ("", [])
    else
      var (buf, written) := AfterWrites(chunks[..|chunks| - 1]);
      var s := buf + chunks[|chunks| - 1];
      (Rest(s), written + ChompAll(RawLines(s)))
  }

  /** The lines logged depend on the bytes written, not on how they were split into writes. */
  lemma {:induction false} ChunkingInvisible(chunks: seq<string>)
    ensures AfterWrites(chunks) == (Rest(Concat(chunks)), ChompAll(RawLines(Concat(chunks))))
  {
    if chunks != [] {
      var front, last := chunks[..|chunks| - 1], chunks[|chunks| - 1];
      ChunkingInvisible(front);
      CutAppend(Concat(front), last);
      ChompAppend(RawLines(Concat(front)), RawLines(Rest(Concat(front)) + last));
    } else {
      assert ChompAll(RawLines("")) == [];
    }
  }

  /** Nothing is lost: the lines with their terminators and the buffer are the bytes written, in whatever writes they came. */
  lemma WritesHaveLines(chunks: seq<string>)
    ensures HasLines(Concat(chunks), AfterWrites(chunks).1, AfterWrites(chunks).0)
  {
    ChunkingInvisible(chunks);
    CutHasLines(Concat(chunks));
  }
}
