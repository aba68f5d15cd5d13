/**
 The console-log follower of internal/logs/tailer.go. One call of `Check` is one poll; what
 the file system shows it is an `Observation`, whose `chunks` are the non-empty results of
 successive Read calls before the end of the file or a read error, cut up in any way.
 */
module Tailer {
  import opened LineBytes
  import opened LineCut
  import LogTail

  const MAX_PARTIAL_LINE: nat := 1_048_576
  const CHUNK: nat := 32_768

  datatype Observation =
    | Missing
    | StatFailed
    | Present(ino: nat, size: nat, opens: bool, content: string, backlogReads: bool, chunks: seq<string>)

  datatype View = View(open: bool, ino: nat, offset: nat, buf: string, wasMissing: bool)

  // ------------------------------------------------------------ specification

  /** One chunk through drain's inner loop: the new buffer and the lines it completes. */
  function Feed(buf: string, chunk: string): (string, seq<string>) {
    var s := buf + chunk;
    var lines := ChompAll(RawLines(s));
    if |Rest(s)| > MAX_PARTIAL_LINE then ("", lines + [Rest(s)]) else (Rest(s), lines)
  }

  function FeedAll(buf: string, chunks: seq<string>): (string, seq<string>) {
    if chunks == [] then (buf, [])
    else
      var (buf1, lines1) := FeedAll(buf, chunks[..|chunks| - 1]);
      var (buf2, lines2) := Feed(buf1, chunks[|chunks| - 1]);
      (buf2, lines1 + lines2)
  }

  function Drained(v: View, chunks: seq<string>): (View, seq<string>) {
    var (buf, lines) := FeedAll(v.buf, chunks);
    (v.(buf := buf, offset := v.offset + |Concat(chunks)|), lines)
  }

  /** One check: the new state, the lines for onLine and the lines for BacklogLine. */
  function Checked(v: View, backlog: nat, o: Observation): (View, seq<string>, seq<string>) {
    match o
    case Missing => (if v.open then v.(open := false, buf := "", wasMissing := true) else v.(wasMissing := true), [], [])
    case StatFailed => (v, [], [])
    case Present(ino, size, opens, content, backlogReads, chunks) =>
      if !v.open then
        if !opens then (v, [], [])
        else if v.wasMissing then (View(true, ino, 0, "", false), [], [])
        else
          (View(true, ino, |content|, "", false), [],
           if backlog > 0 && backlogReads then ChompAll(LogTail.LastLines(LogTail.ReadBack(content, backlog, LogTail.READ_CHUNK), backlog)) else [])
      else if ino != v.ino then
        if !opens then (v.(open := false), [], [])
        else
          var (w, lines) := Drained(View(true, ino, 0, "", v.wasMissing), chunks);
          (w, lines, [])
      else if size < v.offset then
        var (w, lines) := Drained(v.(offset := 0, buf := ""), chunks);
        (w, lines, [])
      else
        var (w, lines) := Drained(v, chunks);
        (w, lines, [])
  }

  // ------------------------------------------------------------ told by the bytes

  /** A line handed on: complete, or cut off because it had grown too long. */
  predicate IsHanded(line: string, end: string) {
    IsLine(line, end) || (end == "" && |line| > 1_048_576 && '\n' !in line)
  }

  /** Some bytes are handed on as these lines, and the rest is kept. */
  ghost predicate Hands(s: string, lines: seq<string>, rest: string) {
    exists ends :: HandsWith(s, lines, ends, rest)
  }

  predicate HandsWith(s: string, lines: seq<string>, ends: seq<string>, rest: string) {
    && |ends| == |lines| && s == Glued(lines, ends) + rest && '\n' !in rest
    && AllHanded(lines, ends)
  }

  predicate AllHanded(lines: seq<string>, ends: seq<string>)
    requires |lines| == |ends|
  {
    forall k | 0 <= k < |lines| :: IsHanded(lines[k], ends[k])
  }

  /** A chunk taken in: every byte of buffer and chunk is handed on or kept. */
  lemma FeedHands(buf: string, chunk: string)
    ensures Hands(buf + chunk, Feed(buf, chunk).1, Feed(buf, chunk).0)
  {
    var s := buf + chunk;
    var lines := ChompAll(RawLines(s));
    CutHasLines(s);
    var ends :| CutsInto(s, lines, ends, Rest(s));
    if |Rest(s)| > MAX_PARTIAL_LINE {
      var all, allEnds := lines + [Rest(s)], ends + [""];
      assert all[..|all| - 1] == lines && allEnds[..|allEnds| - 1] == ends;
      assert Glued(all, allEnds) == Glued(lines, ends) + Rest(s) + "" == s;
      assert Glued(all, allEnds) + "" == s;
      assert HandsWith(s, all, allEnds, "");
    } else {
      assert HandsWith(s, lines, ends, Rest(s));
    }
  }

  lemma HandsMore(s: string, lines: seq<string>, buf: string, chunk: string, more: seq<string>, rest: string)
    requires Hands(s, lines, buf) && Hands(buf + chunk, more, rest)
    ensures Hands(s + chunk, lines + more, rest)
  {
    var ends :| HandsWith(s, lines, ends, buf);
    var next :| HandsWith(buf + chunk, more, next, rest);
    GluedAppend(lines, ends, more, next);
    Glue4(Glued(lines, ends), buf, chunk, Glued(more, next), rest);
    AllHandedAppend(lines, ends, more, next);
    assert HandsWith(s + chunk, lines + more, ends + next, rest);
  }

  lemma AllHandedAppend(lines: seq<string>, ends: seq<string>, more: seq<string>, next: seq<string>)
    requires |lines| == |ends| && |more| == |next| && AllHanded(lines, ends) && AllHanded(more, next)
    ensures AllHanded(lines + more, ends + next)
  {
  }

  lemma Glue4(g: string, buf: string, chunk: string, h: string, rest: string)
    requires buf + chunk == h + rest
    ensures g + buf + chunk == g + h + rest
  {
    assert g + buf + chunk == g + (buf + chunk);
    assert g + h + rest == g + (h + rest);
  }

  /** However much is read, and in whatever chunks: no byte is lost, whether the lines fit or not. */
  lemma {:induction false} FeedAllHands(buf: string, chunks: seq<string>)
    requires '\n' !in buf
    ensures Hands(buf + Concat(chunks), FeedAll(buf, chunks).1, FeedAll(buf, chunks).0)
  {
    if chunks == [] {
      NothingHands(buf);
    } else {
      var front, last := chunks[..|chunks| - 1], chunks[|chunks| - 1];
      FeedAllHands(buf, front);
      var (b, lines) := FeedAll(buf, front);
      FeedHands(b, last);
      HandsMore(buf + Concat(front), lines, b, last, Feed(b, last).1, Feed(b, last).0);
      ConcatSnoc(buf, chunks);
    }
  }

  lemma NothingHands(buf: string)
    requires '\n' !in buf
    ensures Hands(buf + Concat([]), [], buf)
  {
    var none: seq<string> := [];
    assert buf + Concat([]) == buf && Glued(none, none) + buf == buf;
    assert HandsWith(buf, none, none, buf);
  }

  // ------------------------------------------------------------ the code

  class FileTailer {
    const backlog: nat
    var open: bool
    var ino: nat
    var offset: nat
    var buf: string
    var wasMissing: bool
    var emitted: seq<string>   // lines given to onLine
    var replayed: seq<string>  // lines given to BacklogLine

    function State(): View
      reads this
    {
      View(open, ino, offset, buf, wasMissing)
    }

    constructor (backlog: nat)
      ensures State() == View(false, 0, 0, "", false) && emitted == [] && replayed == []
    {
      this.backlog := backlog;
      open, ino, offset, buf, wasMissing, emitted, replayed := false, 0, 0, "", false, [], [];
    }

    // tailer.go:153-241
    method Check(o: Observation)
      modifies this
      ensures var (v, lines, back) := Checked(old(State()), backlog, o);
              State() == v && emitted == old(emitted) + lines && replayed == old(replayed) + back
      ensures o.StatFailed? || (o.Present? && !o.opens && !old(open)) ==>
        State() == old(State()) && emitted == old(emitted) && replayed == old(replayed)
      ensures o.Missing? ==> !open && wasMissing && emitted == old(emitted) && replayed == old(replayed)
      ensures o.Present? && o.opens ==> open && ino == o.ino
      ensures o.Present? && !o.opens && old(open) && o.ino != old(ino) ==> !open && emitted == old(emitted)
    {
      match o
      case Missing =>
        wasMissing := true;
        if open {
          open := false;
          buf := "";
        }
      case StatFailed =>
      case Present(curIno, size, opens, content, backlogReads, chunks) =>
        if !open {
          if !opens { return; }
          open, ino, buf := true, curIno, "";
          if wasMissing {
            offset, wasMissing := 0, false;
            return;
          }
          if backlog > 0 && backlogReads {
            var lines := LogTail.ReadLastLines(content, backlog, LogTail.READ_CHUNK);
            replayed := replayed + lines;
            offset := |content|;
          } else {
            offset := |content|;
          }
          return;
        }
        if curIno != ino {
          if !opens {
            open := false;
            return;
          }
          ino, offset, buf := curIno, 0, "";
        } else if size < offset {
          offset, buf := 0, "";
        }
        Drain(chunks);
    }

    // tailer.go:245-276
    method Drain(chunks: seq<string>)
      modifies this`offset, this`buf, this`emitted
      ensures buf == FeedAll(old(buf), chunks).0 && emitted == old(emitted) + FeedAll(old(buf), chunks).1
      ensures offset == old(offset) + |Concat(chunks)|
      ensures '\n' !in old(buf) ==>
        exists lines :: emitted == old(emitted) + lines && Hands(old(buf) + Concat(chunks), lines, buf)
    {
      var r := 0;
      while r < |chunks|
        invariant r <= |chunks|
        invariant buf == FeedAll(old(buf), chunks[..r]).0
        invariant emitted == old(emitted) + FeedAll(old(buf), chunks[..r]).1
        invariant offset == old(offset) + |Concat(chunks[..r])|
      {
        FeedAllSnoc(old(buf), chunks, r);
        offset := offset + |chunks[r]|;
        TakeChunk(chunks[r]);
        r := r + 1;
      }
      assert chunks[..r] == chunks;
      if '\n' !in old(buf) {
        FeedAllHands(old(buf), chunks);
      }
    }

    method TakeChunk(chunk: string)
      modifies this`buf, this`emitted
      ensures var (b, lines) := Feed(old(buf), chunk); buf == b && emitted == old(emitted) + lines
    {
      ghost var all := buf + chunk;
      buf := buf + chunk;
      while true
        invariant emitted + ChompAll(RawLines(buf)) == old(emitted) + ChompAll(RawLines(all))
        invariant Rest(buf) == Rest(all)
        decreases |buf|
      {
        var i := IndexNewline(buf);
        if i == |buf| {
          assert buf[..i] == buf;
          NoNewline(buf);
          break;
        }
        FirstLineChomped(buf, i);
        Regroup(emitted, [Chomp(buf[..i])], ChompAll(RawLines(buf[i + 1..])));
        emitted := emitted + [Chomp(buf[..i])];
        buf := buf[i + 1..];
      }
      assert emitted == old(emitted) + ChompAll(RawLines(all));
      RestUncut(all);
      if |buf| > MAX_PARTIAL_LINE {
        emitted := emitted + [buf];
        buf := "";
        assert emitted == old(emitted) + (ChompAll(RawLines(all)) + [Rest(all)]);
      }
    }
  }

  lemma FeedAllSnoc(buf: string, chunks: seq<string>, r: nat)
    requires r < |chunks|
    ensures var (b, lines) := FeedAll(buf, chunks[..r]);
            var (c, more) := Feed(b, chunks[r]);
            FeedAll(buf, chunks[..r + 1]) == (c, lines + more)
    ensures |Concat(chunks[..r + 1])| == |Concat(chunks[..r])| + |chunks[r]|
  {
    assert chunks[..r + 1][..r] == chunks[..r];
  }

  // ------------------------------------------------------------ laws

  /** The buffer is bounded whatever the file holds: by the cap between chunks, plus one chunk inside one. */
  lemma {:induction false} BufferBounded(buf: string, chunks: seq<string>)
    requires |buf| <= MAX_PARTIAL_LINE && forall r | r in chunks :: |r| <= CHUNK
    ensures |FeedAll(buf, chunks).0| <= MAX_PARTIAL_LINE
    ensures forall k | 0 <= k < |chunks| :: |FeedAll(buf, chunks[..k]).0 + chunks[k]| <= MAX_PARTIAL_LINE + CHUNK
  {
    if chunks != [] {
      var n := |chunks| - 1;
      BufferBounded(buf, chunks[..n]);
      forall k | 0 <= k < |chunks|
        ensures |FeedAll(buf, chunks[..k]).0 + chunks[k]| <= MAX_PARTIAL_LINE + CHUNK
      {
        assert chunks[k] in chunks;
        if k < n {
          assert chunks[..n][..k] == chunks[..k] && chunks[..n][k] == chunks[k];
        }
      }
    }
  }

  /** No stretch without a newline is longer than the cap. */
  ghost predicate Fits(s: string) {
    forall i, j | 0 <= i <= j <= |s| && '\n' !in s[i..j] :: j - i <= MAX_PARTIAL_LINE
  }

  lemma {:induction false} RestIsSuffix(s: string)
    ensures |Rest(s)| <= |s| && s[|s| - |Rest(s)|..] == Rest(s)
  {
    if s != "" {
      RestIsSuffix(s[..|s| - 1]);
    }
  }

  lemma PrefixFits(s: string, n: nat)
    requires Fits(s) && n <= |s|
    ensures |Rest(s[..n])| <= MAX_PARTIAL_LINE
  {
    var p := s[..n];
    RestIsSuffix(p);
    RestUncut(p);
    assert s[n - |Rest(p)|..n] == p[|p| - |Rest(p)|..];
  }

  /** A chunk that leaves lines fitting adds to the lines and to the rest what it adds to the text. */
  lemma FeedExact(s: string, chunk: string)
    requires Fits(s + chunk)
    ensures Feed(Rest(s), chunk).0 == Rest(s + chunk)
    ensures ChompAll(RawLines(s)) + Feed(Rest(s), chunk).1 == ChompAll(RawLines(s + chunk))
  {
    CutAppend(s, chunk);
    assert (s + chunk)[..|s + chunk|] == s + chunk;
    PrefixFits(s + chunk, |s + chunk|);
    ChompAppend(RawLines(s), RawLines(Rest(s) + chunk));
  }

  lemma ConcatSnoc(head: string, chunks: seq<string>)
    requires chunks != []
    ensures head + Concat(chunks) == head + Concat(chunks[..|chunks| - 1]) + chunks[|chunks| - 1]
  {
    Regroup(head, Concat(chunks[..|chunks| - 1]), chunks[|chunks| - 1]);
  }

  /** While lines fit, chunks disappear: the reads are cut as if they had come in one piece. */
  lemma {:induction false} FeedAllExact(head: string, chunks: seq<string>)
    requires Fits(head + Concat(chunks))
    ensures FeedAll(Rest(head), chunks).0 == Rest(head + Concat(chunks))
    ensures ChompAll(RawLines(head)) + FeedAll(Rest(head), chunks).1 == ChompAll(RawLines(head + Concat(chunks)))
  {
    if chunks == [] {
      assert head + "" == head;
    } else {
      var front, last := chunks[..|chunks| - 1], chunks[|chunks| - 1];
      var s := head + Concat(front);
      ConcatSnoc(head, chunks);
      assert s == (s + last)[..|s|];
      FitsPrefix(s + last, |s|);
      FeedAllExact(head, front);
      FeedExact(s, last);
      Regroup(ChompAll(RawLines(head)), FeedAll(Rest(head), front).1, Feed(Rest(s), last).1);
    }
  }

  lemma Regroup<T>(a: seq<T>, b: seq<T>, c: seq<T>)
    ensures a + (b + c) == a + b + c
  {
  }

  lemma FitsPrefix(s: string, n: nat)
    requires Fits(s) && n <= |s|
    ensures Fits(s[..n])
  {
    forall i, j | 0 <= i <= j <= n && '\n' !in s[..n][i..j]
      ensures j - i <= MAX_PARTIAL_LINE
    {
      assert s[..n][i..j] == s[i..j];
    }
  }

  /**
   `obs[k]` is a check of an already open file that has only grown: what had been read of it
   was `contents[k]`, and reading to its end gives `contents[k + 1]`.
   */
  ghost predicate Growing(v: View, contents: seq<string>, obs: seq<Observation>) {
    && |contents| == |obs| + 1 && |contents[0]| == v.offset
    && (forall k {:trigger obs[k]} | 0 <= k < |obs| :: Grows(v.ino, contents[k], contents[k + 1], obs[k]))
  }

  ghost predicate Grows(ino: nat, before: string, after: string, o: Observation) {
    && o.Present? && o.ino == ino && |before| <= o.size
    && before <= after && Concat(o.chunks) == after[|before|..]
  }

  /** Checks in a row, collecting what goes to onLine. */
  function CheckedAll(v: View, backlog: nat, obs: seq<Observation>): (View, seq<string>) {
    if obs == [] then (v, [])
    else
      var (w, lines) := CheckedAll(v, backlog, obs[..|obs| - 1]);
      var (x, more, _) := Checked(w, backlog, obs[|obs| - 1]);
      (x, lines + more)
  }

  /** State `w` and `lines` are `content` from `start` on, cut at newlines, `before` having been emitted earlier. */
  ghost predicate InStep(v: View, start: nat, before: string, content: string, w: View, lines: seq<string>)
    requires start <= |before| && start <= |content|
  {
    && w == v.(offset := |content|, buf := Rest(content[start..]))
    && ChompAll(RawLines(before[start..])) + lines == ChompAll(RawLines(content[start..]))
  }

  /**
   However the growth of the file is split into checks and reads, what was emitted since
   `start` together with the buffer is the content from `start` to the offset, cut at
   newlines.
   */
  lemma {:induction false} Follows(v: View, backlog: nat, start: nat, contents: seq<string>, obs: seq<Observation>)
    requires v.open && Growing(v, contents, obs)
    requires start <= v.offset && v.buf == Rest(contents[0][start..])
    requires start <= |contents[|obs|]| && Fits(contents[|obs|][start..])
    ensures var (w, lines) := CheckedAll(v, backlog, obs);
            InStep(v, start, contents[0], contents[|obs|], w, lines)
  {
    if obs != [] {
      var n := |obs| - 1;
      ContentsGrow(v, contents, obs, n);
      assert Grows(v.ino, contents[n], contents[n + 1], obs[n]);
      FitsBefore(start, contents[n], contents[n + 1]);
      assert forall k {:trigger obs[..n][k]} | 0 <= k < n :: obs[..n][k] == obs[k];
      Follows(v, backlog, start, contents[..n + 1], obs[..n]);
      var (w, lines) := CheckedAll(v, backlog, obs[..n]);
      FollowsStep(v, backlog, start, contents[0], contents[n], contents[n + 1], w, lines, obs[n]);
    }
  }

  lemma FitsBefore(start: nat, before: string, after: string)
    requires start <= |before| && before <= after && Fits(after[start..])
    ensures Fits(before[start..])
  {
    assert after[start..][..|before| - start] == before[start..];
    FitsPrefix(after[start..], |before| - start);
  }

  lemma FollowsStep(v: View, backlog: nat, start: nat, first: string, before: string, after: string,
                    w: View, lines: seq<string>, o: Observation)
    requires v.open && start <= |first| && start <= |before| && Grows(v.ino, before, after, o)
    requires InStep(v, start, first, before, w, lines) && Fits(after[start..])
    ensures var (x, more, _) := Checked(w, backlog, o);
            InStep(v, start, first, after, x, lines + more)
  {
    assert before[start..] == after[start..|before|];
    FollowsOne(w, backlog, start, after, o);
    Regroup(ChompAll(RawLines(first[start..])), lines, Checked(w, backlog, o).1);
  }

  lemma {:induction false} ContentsGrow(v: View, contents: seq<string>, obs: seq<Observation>, k: nat)
    requires Growing(v, contents, obs) && k <= |obs|
    ensures v.offset <= |contents[k]|
  {
    if k > 0 {
      ContentsGrow(v, contents, obs, k - 1);
      assert Grows(v.ino, contents[k - 1], contents[k], obs[k - 1]);
    }
  }

  /** One check of a file that has grown to `content` since `v.offset`. */
  lemma FollowsOne(v: View, backlog: nat, start: nat, content: string, o: Observation)
    requires v.open && o.Present? && o.ino == v.ino
    requires start <= v.offset <= |content| && v.buf == Rest(content[start..v.offset])
    requires v.offset <= o.size && Concat(o.chunks) == content[v.offset..]
    requires Fits(content[start..])
    ensures var (w, lines, back) := Checked(v, backlog, o);
            && w == v.(offset := |content|, buf := Rest(content[start..])) && back == []
            && ChompAll(RawLines(content[start..v.offset])) + lines == ChompAll(RawLines(content[start..]))
  {
    assert content[start..] == content[start..v.offset] + content[v.offset..];
    FeedAllExact(content[start..v.offset], o.chunks);
  }

  /** A rotated or truncated file is followed from its first byte, and nothing of the old buffer leaks into it. */
  lemma RestartsFromZero(v: View, backlog: nat, o: Observation)
    requires v.open && o.Present? && o.opens && (o.ino != v.ino || o.size < v.offset)
    requires Fits(Concat(o.chunks))
    ensures var (w, lines, back) := Checked(v, backlog, o);
            && w == View(true, o.ino, |Concat(o.chunks)|, Rest(Concat(o.chunks)), v.wasMissing)
            && lines == ChompAll(RawLines(Concat(o.chunks))) && back == []
  {
    assert "" + Concat(o.chunks) == Concat(o.chunks);
    assert ChompAll(RawLines("")) == [];
    FeedAllExact("", o.chunks);
  }

  /** A file that had to be waited for is taken from its first byte, skipping neither backlog nor content. */
  lemma WaitedForStartsAtZero(v: View, backlog: nat, o: Observation)
    requires o.Present? && o.opens
    ensures var gone := Checked(v, backlog, Missing).0;
            Checked(gone, backlog, o) == (View(true, o.ino, 0, "", false), [], [])
  {
  }

  /** A file there from the start is read from its end, after its last lines have been replayed. */
  lemma FirstOpenReplays(v: View, backlog: nat, o: Observation)
    requires !v.open && !v.wasMissing && o.Present? && o.opens
    ensures var (w, lines, back) := Checked(v, backlog, o);
            && w == View(true, o.ino, |o.content|, "", false) && lines == []
            && if backlog == 0 || !o.backlogReads then back == []
               else !LogTail.EndsBlank(o.content) ==> LogTail.AreLastChomped(o.content, backlog, back)
  {
    var n := LogTail.StopAt(o.content, backlog, LogTail.READ_CHUNK, |o.content|);
    LogTail.EnoughRead(o.content, backlog, n);
    LogTail.LastLinesChomped(o.content, backlog);
  }
}
