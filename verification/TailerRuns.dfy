/** The log follower over any sequence of polls: internal/logs/tailer.go:151-276. */
module TailerRuns {
  import opened LineBytes
  import opened LineCut
  import opened Tailer

  /** What was read of one file, from where it was taken up: until it is gone, rotated or cut short. */
  datatype Session = Session(start: nat, text: string)

  /** The sessions after one more poll of a follower in state v. */
  function Followed(sessions: seq<Session>, v: View, o: Observation): seq<Session> {
    if !o.Present? || (!o.opens && (!v.open || o.ino != v.ino)) then sessions
    else if !v.open then sessions + [Session(if v.wasMissing then 0 else |o.content|, "")]
    else if o.ino != v.ino || o.size < v.offset || sessions == [] then sessions + [Session(0, Concat(o.chunks))]
    else
      var last := sessions[|sessions| - 1];
      sessions[..|sessions| - 1] + [last.(text := last.text + Concat(o.chunks))]
  }

  const CLOSED := View(false, 0, 0, "", false)

  function Sessions(backlog: nat, obs: seq<Observation>): seq<Session> {
    if obs == [] then []
    else
      var front, o := obs[..|obs| - 1], obs[|obs| - 1];
      Followed(Sessions(backlog, front), CheckedAll(CLOSED, backlog, front).0, o)
  }

  /** The lines of the sessions, each cut at its own newlines. */
  function LinesOf(sessions: seq<Session>): seq<string> {
    if sessions == [] then []
    else LinesOf(sessions[..|sessions| - 1]) + ChompAll(RawLines(sessions[|sessions| - 1].text))
  }

  ghost predicate AllFit(sessions: seq<Session>) {
    forall s | s in sessions :: Fits(s.text)
  }

  /** The follower has given out the lines of all sessions and holds the unfinished rest of the current one. */
  ghost predicate IsAbreast(sessions: seq<Session>, v: View, lines: seq<string>) {
    && lines == LinesOf(sessions)
    && (v.open ==>
          && sessions != []
          && var current := sessions[|sessions| - 1];
             v.offset == current.start + |current.text| && v.buf == Rest(current.text))
  }

  lemma AllFitBefore(sessions: seq<Session>, v: View, o: Observation)
    requires AllFit(Followed(sessions, v, o))
    ensures AllFit(sessions)
  {
    var next := Followed(sessions, v, o);
    forall s | s in sessions ensures Fits(s.text) {
      var i :| 0 <= i < |sessions| && sessions[i] == s;
      assert next[i] in next && s.text <= next[i].text;
      assert next[i].text[..|s.text|] == s.text;
      FitsPrefix(next[i].text, |s.text|);
    }
  }

  lemma LinesSnoc(front: seq<Session>, s: Session)
    ensures LinesOf(front + [s]) == LinesOf(front) + ChompAll(RawLines(s.text))
  {
    assert (front + [s])[..|front|] == front;
  }

  /** A session that begins with a read. */
  lemma BeginsAbreast(sessions: seq<Session>, w: View, chunks: seq<string>, lines: seq<string>)
    requires lines == LinesOf(sessions) && Fits(Concat(chunks)) && w.open && w.offset == 0 && w.buf == ""
    ensures IsAbreast(sessions + [Session(0, Concat(chunks))], Drained(w, chunks).0, lines + Drained(w, chunks).1)
  {
    assert "" + Concat(chunks) == Concat(chunks);
    assert ChompAll(RawLines("")) == [];
    FeedAllExact("", chunks);
    LinesSnoc(sessions, Session(0, Concat(chunks)));
  }

  /** A session that goes on. */
  lemma GoesOnAbreast(front: seq<Session>, s: Session, w: View, chunks: seq<string>, lines: seq<string>)
    requires w.open && IsAbreast(front + [s], w, lines) && Fits(s.text + Concat(chunks))
    ensures IsAbreast(front + [s.(text := s.text + Concat(chunks))], Drained(w, chunks).0, lines + Drained(w, chunks).1)
  {
    FeedAllExact(s.text, chunks);
    LinesSnoc(front, s);
    LinesSnoc(front, s.(text := s.text + Concat(chunks)));
    Regroup(LinesOf(front), ChompAll(RawLines(s.text)), FeedAll(Rest(s.text), chunks).1);
  }

  lemma OpensAbreast(sessions: seq<Session>, start: nat, ino: nat, lines: seq<string>)
    requires lines == LinesOf(sessions)
    ensures IsAbreast(sessions + [Session(start, "")], View(true, ino, start, "", false), lines)
  {
    LinesSnoc(sessions, Session(start, ""));
    assert ChompAll(RawLines("")) == [];
  }

  lemma StaysAbreast(sessions: seq<Session>, v: View, backlog: nat, o: Observation, lines: seq<string>)
    requires IsAbreast(sessions, v, lines) && AllFit(Followed(sessions, v, o))
    ensures IsAbreast(Followed(sessions, v, o), Checked(v, backlog, o).0, lines + Checked(v, backlog, o).1)
  {
    var next := Followed(sessions, v, o);
    if !o.Present? || (!o.opens && (!v.open || o.ino != v.ino)) {
      assert lines + [] == lines;
    } else if !v.open {
      OpensAbreast(sessions, if v.wasMissing then 0 else |o.content|, o.ino, lines);
      assert lines + [] == lines;
    } else {
      assert next[|next| - 1] in next;
      if o.ino != v.ino {
        BeginsAbreast(sessions, View(true, o.ino, 0, "", v.wasMissing), o.chunks, lines);
      } else if o.size < v.offset {
        BeginsAbreast(sessions, v.(offset := 0, buf := ""), o.chunks, lines);
      } else {
        var front, last := sessions[..|sessions| - 1], sessions[|sessions| - 1];
        assert sessions == front + [last];
        GoesOnAbreast(front, last, v, o.chunks, lines);
      }
    }
  }

  /**
   Whatever is polled, in whatever order, with failed polls, waits, rotations and truncations in between: while lines
   fit, the lines given out are those of the sessions one after the other, and the buffer is the rest of the last one.
   */
  lemma {:induction false} AlwaysAbreast(backlog: nat, obs: seq<Observation>)
    requires AllFit(Sessions(backlog, obs))
    ensures IsAbreast(Sessions(backlog, obs), CheckedAll(CLOSED, backlog, obs).0, CheckedAll(CLOSED, backlog, obs).1)
  {
    if obs != [] {
      var front, o := obs[..|obs| - 1], obs[|obs| - 1];
      var v, lines := CheckedAll(CLOSED, backlog, front).0, CheckedAll(CLOSED, backlog, front).1;
      AllFitBefore(Sessions(backlog, front), v, o);
      AlwaysAbreast(backlog, front);
      StaysAbreast(Sessions(backlog, front), v, backlog, o, lines);
    }
  }

  /** Lines given out for one session each. */
  function Flat(parts: seq<seq<string>>): seq<string> {
    if parts == [] then [] else Flat(parts[..|parts| - 1]) + parts[|parts| - 1]
  }

  /** The lines of a session are those its bytes have. */
  lemma {:induction false} SessionsHaveLines(sessions: seq<Session>) returns (parts: seq<seq<string>>)
    ensures |parts| == |sessions| && LinesOf(sessions) == Flat(parts)
    ensures forall k | 0 <= k < |parts| :: HasLines(sessions[k].text, parts[k], Rest(sessions[k].text))
  {
    if sessions == [] {
      parts := [];
    } else {
      var front, last := sessions[..|sessions| - 1], sessions[|sessions| - 1];
      var before := SessionsHaveLines(front);
      parts := before + [ChompAll(RawLines(last.text))];
      CutHasLines(last.text);
      assert parts[..|parts| - 1] == before;
    }
  }

  /** The same told by the bytes: each session's text is its lines with their terminators, the last one's and the buffer. */
  lemma LinesByTheBytes(backlog: nat, obs: seq<Observation>) returns (parts: seq<seq<string>>)
    requires AllFit(Sessions(backlog, obs))
    ensures |parts| == |Sessions(backlog, obs)| && CheckedAll(CLOSED, backlog, obs).1 == Flat(parts)
    ensures forall k | 0 <= k < |parts| ::
      HasLines(Sessions(backlog, obs)[k].text, parts[k], Rest(Sessions(backlog, obs)[k].text))
    ensures var v, n := CheckedAll(CLOSED, backlog, obs).0, |parts|;
      v.open ==> n > 0 && HasLines(Sessions(backlog, obs)[n - 1].text, parts[n - 1], v.buf)
  {
    AlwaysAbreast(backlog, obs);
    parts := SessionsHaveLines(Sessions(backlog, obs));
  }
}
