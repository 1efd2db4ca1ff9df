/** The parser that turns the follow-up generator's reply into the queue of
    follow-up questions: split on line feeds, strip every line, drop the
    blank ones. */
module FollowUpQueue {
  import opened Text

  /** A queue entry as the parser produces it: non-empty, no surrounding
      whitespace, a single line. */
  predicate WellFormedEntry(q: string) {
    q != [] && Stripped(q) && '\n' !in q
  }

  predicate WellFormedQueue(queue: seq<string>) {
    forall k :: 0 <= k < |queue| ==> WellFormedEntry(queue[k])
  }

  /** The list comprehension `[l.strip() for l in lines if l.strip()]`. */
  function KeepNonBlank(lines: seq<string>): seq<string> {
    if lines == [] then []
    else
      var l := Strip(lines[0]);
      (if l == [] then [] else [l]) + KeepNonBlank(lines[1..])
  }

  /** The follow-up queue for a generator reply. */
  function ParseFollowUps(text: string): seq<string> {
    KeepNonBlank(Split(text, '\n'))
  }

  /** The comprehension works line by line, keeping the order of the lines. */
  lemma {:induction false} KeepNonBlankAppend(a: seq<string>, b: seq<string>)
    ensures KeepNonBlank(a + b) == KeepNonBlank(a) + KeepNonBlank(b)
  {
    if a == [] {
      assert a + b == b;
    } else {
      assert (a + b)[0] == a[0];
      assert (a + b)[1..] == a[1..] + b;
      KeepNonBlankAppend(a[1..], b);
      var head := if Strip(a[0]) == [] then [] else [Strip(a[0])];
      assert KeepNonBlank(a + b) == head + (KeepNonBlank(a[1..]) + KeepNonBlank(b));
      assert head + (KeepNonBlank(a[1..]) + KeepNonBlank(b)) == head + KeepNonBlank(a[1..]) + KeepNonBlank(b);
    }
  }

  /** Every entry of the comprehension over newline-free lines is well formed. */
  lemma {:induction false} KeepNonBlankWellFormed(lines: seq<string>)
    requires forall k :: 0 <= k < |lines| ==> '\n' !in lines[k]
    ensures WellFormedQueue(KeepNonBlank(lines))
    ensures |KeepNonBlank(lines)| <= |lines|
  {
    if lines != [] {
      var l, rest := Strip(lines[0]), lines[1..];
      KeepNonBlankWellFormed(rest);
      if l != [] {
        if '\n' in l {
          StripKeeps(lines[0], '\n');
        }
        assert WellFormedEntry(l);
        QueuedEntry(l, KeepNonBlank(rest));
      }
    }
  }

  /** A well-formed entry in front of a well-formed queue. */
  lemma QueuedEntry(q: string, queue: seq<string>)
    requires WellFormedEntry(q) && WellFormedQueue(queue)
    ensures WellFormedQueue([q] + queue)
  {
    var r := [q] + queue;
    forall k | 0 <= k < |r| ensures WellFormedEntry(r[k]) {
      if k > 0 { assert r[k] == queue[k - 1]; }
    }
  }

  /** Every queue entry is non-empty, has no leading or trailing whitespace
      and holds no line feed; the queue is never longer than the reply has lines. */
  lemma ParsedQueueWellFormed(text: string)
    ensures WellFormedQueue(ParseFollowUps(text))
    ensures |ParseFollowUps(text)| <= |Split(text, '\n')|
  {
    KeepNonBlankWellFormed(Split(text, '\n'));
  }

  /** Parsing distributes over the lines of the reply: the entries of an earlier
      line come before those of a later one. */
  lemma ParseLines(a: string, b: string)
    ensures ParseFollowUps(a + "\n" + b) == ParseFollowUps(a) + ParseFollowUps(b)
  {
    SplitAt(a, '\n', b);
    KeepNonBlankAppend(Split(a, '\n'), Split(b, '\n'));
  }

  /** A single line yields its stripped text, or nothing when it is blank. */
  lemma ParseOneLine(line: string)
    requires '\n' !in line
    ensures ParseFollowUps(line) == if AllSpace(line) then [] else [Strip(line)]
  {
    SplitWhole(line, '\n');
    assert [line][1..] == [];
    assert KeepNonBlank([line]) == (if Strip(line) == [] then [] else [Strip(line)]) + KeepNonBlank([]);
  }

  lemma {:induction false} KeepNonBlankEmpty(lines: seq<string>)
    ensures KeepNonBlank(lines) == [] <==> forall k :: 0 <= k < |lines| ==> AllSpace(lines[k])
  {
    if lines != [] {
      var l, rest := Strip(lines[0]), lines[1..];
      KeepNonBlankEmpty(rest);
      assert KeepNonBlank(lines) == (if l == [] then [] else [l]) + KeepNonBlank(rest);
      if KeepNonBlank(lines) == [] {
        assert l == [] && KeepNonBlank(rest) == [];
        forall k | 0 <= k < |lines| ensures AllSpace(lines[k]) {
          if k > 0 { assert lines[k] == rest[k - 1]; }
        }
      } else if l == [] {
        var k :| 0 <= k < |rest| && !AllSpace(rest[k]);
        assert lines[k + 1] == rest[k];
      }
    }
  }

  /** The queue is empty exactly when the reply is whitespace only. */
  lemma ParseEmptyIff(text: string)
    ensures ParseFollowUps(text) == [] <==> AllSpace(text)
  {
    var lines := Split(text, '\n');
    KeepNonBlankEmpty(lines);
    if AllSpace(text) {
      SplitAllSpace(text, '\n');
    }
    if ParseFollowUps(text) == [] {
      JoinSplit(text, '\n');
      JoinAllSpace(lines, '\n');
    }
  }

  lemma {:induction false} KeepWellFormed(queue: seq<string>)
    requires WellFormedQueue(queue)
    ensures KeepNonBlank(queue) == queue
  {
    if queue != [] {
      StripStripped(queue[0]);
      KeepWellFormed(queue[1..]);
    }
  }

  /** A well-formed queue written one entry per line parses back to itself. */
  lemma ParseJoin(queue: seq<string>)
    requires WellFormedQueue(queue)
    ensures ParseFollowUps(Join(queue, '\n')) == queue
  {
    if queue == [] {
      var blank: string := [];
      assert Split(blank, '\n') == [blank];
      assert [blank][1..] == [];
      assert KeepNonBlank([blank]) == [] + KeepNonBlank([]);
    } else {
      SplitJoin(queue, '\n');
      KeepWellFormed(queue);
    }
  }
}
