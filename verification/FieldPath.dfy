/** Field paths: the TTL evaluator's parser with its escaped dots (internal/ttl/evaluator.go) and the
    controller's plain split (pkg/controller/field_path.go). */
module FieldPath {

  const DOT: char := '.'
  const BACKSLASH: char := '\\'

  /** Puts c in front of the first segment. */
  function Prepend(c: char, segs: seq<string>): (r: seq<string>)
    requires |segs| > 0
    ensures |r| == |segs|
  {
    [[c] + segs[0]] + segs[1..]
  }

  predicate EscapedDot(s: string) {
    |s| > 1 && s[0] == BACKSLASH && s[1] == DOT
  }

  /** The segments of a path, read left to right; the empty text is one empty segment. */
  function Segments(s: string): (r: seq<string>)
    ensures |r| > 0
  {
    if s == "" then [""]
    else if EscapedDot(s) then Prepend(DOT, Segments(s[2..]))
    else if s[0] == DOT then [""] + Segments(s[1..])
    else Prepend(s[0], Segments(s[1..]))
  }

  function Parsed(path: string): seq<string> {
    if path == "" then [] else Segments(path)
  }

  /** strings.Split(s, "."). */
  function Split(s: string): (r: seq<string>)
    ensures |r| > 0
  {
    if s == "" then [""]
    else if s[0] == DOT then [""] + Split(s[1..])
    else Prepend(s[0], Split(s[1..]))
  }

  /** The controller's parseFieldPath. */
  function PlainParsed(path: string): seq<string> {
    if path == "" then [] else Split(path)
  }

  /** Glues the finished segments and the one being built to what is still unread. */
  ghost function Resume(result: seq<string>, current: string, rest: seq<string>): seq<string>
    requires |rest| > 0
  {
    result + [current + rest[0]] + rest[1..]
  }

  lemma ResumeAtEnds(result: seq<string>, current: string, segs: seq<string>)
    requires |segs| > 0
    ensures Resume([], "", segs) == segs
    ensures Resume(result, current, [""]) == result + [current]
  {
    assert "" + segs[0] == segs[0] && current + "" == current;
  }

  lemma ResumeCharacter(result: seq<string>, current: string, c: char, tail: seq<string>)
    requires |tail| > 0
    ensures Resume(result, current, Prepend(c, tail)) == Resume(result, current + [c], tail)
  {
    assert current + ([c] + tail[0]) == (current + [c]) + tail[0];
  }

  lemma ResumeDot(result: seq<string>, current: string, tail: seq<string>)
    requires |tail| > 0
    ensures Resume(result, current, [""] + tail) == Resume(result + [current], "", tail)
  {
    assert current + "" == current && "" + tail[0] == tail[0];
    assert [tail[0]] + tail[1..] == tail;
  }

  /** The TTL evaluator's parseFieldPath: an index loop over a builder and a growing slice. */
  method ParseFieldPath(path: string) returns (result: seq<string>)
    ensures result == Parsed(path)
  {
    hide Resume, Prepend;
    if path == "" {
      return [];
    }
    result := [];
    var current := "";
    var i := 0;
    ResumeAtEnds(result, current, Segments(path));
    assert path[0..] == path;
    while i < |path|
      invariant 0 <= i <= |path|
      invariant Segments(path) == Resume(result, current, Segments(path[i..]))
    {
      ghost var rest := path[i..];
      if path[i] == BACKSLASH && i + 1 < |path| && path[i + 1] == DOT {
        assert EscapedDot(rest) && rest[2..] == path[i + 2..];
        ResumeCharacter(result, current, DOT, Segments(path[i + 2..]));
        current := current + [DOT];
        i := i + 2;
      } else if path[i] == DOT {
        assert !EscapedDot(rest) && rest[1..] == path[i + 1..];
        ResumeDot(result, current, Segments(path[i + 1..]));
        result := result + [current];
        current := "";
        i := i + 1;
      } else {
        assert !EscapedDot(rest) && rest[1..] == path[i + 1..];
        ResumeCharacter(result, current, path[i], Segments(path[i + 1..]));
        current := current + [path[i]];
        i := i + 1;
      }
    }
    assert path[|path|..] == "";
    ResumeAtEnds(result, current, [""]);
    result := result + [current];
  }

  /** Writes a segment so that its dots survive parsing. */
  function Escape(seg: string): string {
    if seg == "" then ""
    else if seg[0] == DOT then [BACKSLASH, DOT] + Escape(seg[1..])
    else [seg[0]] + Escape(seg[1..])
  }

  /** Escapes every segment and joins with dots. */
  function Unparse(segs: seq<string>): string {
    if segs == [] then ""
    else if |segs| == 1 then Escape(segs[0])
    else Escape(segs[0]) + [DOT] + Unparse(segs[1..])
  }

  lemma {:induction false} UnparsePrepend(c: char, segs: seq<string>)
    requires |segs| > 0
    ensures Unparse(Prepend(c, segs)) == (if c == DOT then [BACKSLASH, DOT] else [c]) + Unparse(segs)
  {
    var p := Prepend(c, segs);
    assert p[0][0] == c && p[0][1..] == segs[0];
    assert p[1..] == segs[1..];
    var head := if c == DOT then [BACKSLASH, DOT] else [c];
    var body := Escape(segs[0]);
    assert Escape(p[0]) == head + body;
    if |segs| > 1 {
      var tail := [DOT] + Unparse(segs[1..]);
      assert Unparse(p) == (head + body) + tail;
      assert Unparse(segs) == body + tail;
      assert (head + body) + tail == head + (body + tail);
    }
  }

  lemma {:induction false} UnparseSegments(s: string)
    ensures Unparse(Segments(s)) == s
  {
    if s == "" {
    } else if EscapedDot(s) {
      UnparseSegments(s[2..]);
      UnparsePrepend(DOT, Segments(s[2..]));
    } else if s[0] == DOT {
      UnparseSegments(s[1..]);
      assert ([""] + Segments(s[1..]))[1..] == Segments(s[1..]);
      assert s == [DOT] + s[1..];
    } else {
      UnparseSegments(s[1..]);
      UnparsePrepend(s[0], Segments(s[1..]));
    }
  }

  /** Writing a parsed path out again gives the path back, for every path. */
  lemma UnparseParsed(path: string)
    ensures Unparse(Parsed(path)) == path
  {
    if path != "" { UnparseSegments(path); }
  }

  /** So two different paths never parse alike. */
  lemma ParseInjective(p: string, q: string)
    requires Parsed(p) == Parsed(q)
    ensures p == q
  {
    UnparseParsed(p);
    UnparseParsed(q);
  }

  predicate EndsInBackslash(s: string) {
    |s| > 0 && s[|s| - 1] == BACKSLASH
  }

  predicate Clean(segs: seq<string>) {
    forall i :: 0 <= i < |segs| - 1 ==> !EndsInBackslash(segs[i])
  }

  /** The lists a path can parse to: not the single empty segment, and no segment but the last ends in
      a backslash. */
  predicate Writable(segs: seq<string>) {
    segs != [""] && Clean(segs)
  }

  lemma PrependClean(c: char, segs: seq<string>)
    requires |segs| > 0 && Clean(segs) && (|segs| > 1 && segs[0] == "" ==> c != BACKSLASH)
    ensures Clean(Prepend(c, segs))
  {
    var p := Prepend(c, segs);
    if segs[0] != "" {
      assert p[0][|p[0]| - 1] == segs[0][|segs[0]| - 1];
    }
    assert forall i :: 0 < i < |p| ==> p[i] == segs[i];
  }

  lemma CleanBehindEmpty(segs: seq<string>)
    requires Clean(segs)
    ensures Clean([""] + segs)
  {
  }

  /** A path whose first segment is empty starts with a dot. */
  lemma FirstSegment(s: string)
    requires s != ""
    ensures Segments(s) != [""]
    ensures Segments(s)[0] == "" ==> s[0] == DOT
  {
  }

  lemma {:induction false} SegmentsClean(s: string)
    ensures Clean(Segments(s))
  {
    hide Clean, Prepend;
    if s == "" {
      NoneClean();
    } else if EscapedDot(s) {
      SegmentsClean(s[2..]);
      PrependClean(DOT, Segments(s[2..]));
    } else if s[0] == DOT {
      SegmentsClean(s[1..]);
      CleanBehindEmpty(Segments(s[1..]));
    } else {
      SegmentsClean(s[1..]);
      if s[1..] != "" { FirstSegment(s[1..]); }
      PrependClean(s[0], Segments(s[1..]));
    }
  }

  lemma NoneClean()
    ensures Clean([""])
  {
  }

  /** What reading c (already unescaped) in front of a finished first segment means for the segments. */
  lemma PrependToFirst(c: char, seg: string, r: seq<string>)
    requires |r| > 0 && seg != "" && seg[0] == c
    ensures Prepend(c, [seg[1..] + r[0]] + r[1..]) == [seg + r[0]] + r[1..]
  {
    assert [c] + (seg[1..] + r[0]) == seg + r[0] by {
      assert seg == [c] + seg[1..];
    }
  }

  lemma InFront(head: string, body: string, rest: string)
    ensures (head + body) + rest == head + (body + rest)
    ensures (head + (body + rest))[|head|..] == body + rest
  {
  }

  /** An escaped segment never starts with a plain dot; what follows its first character is escaped alike. */
  lemma EscapedStart(seg: string, rest: string)
    requires seg != ""
    ensures var s, tail := Escape(seg) + rest, Escape(seg[1..]) + rest;
            if seg[0] == DOT then s == [BACKSLASH, DOT] + tail && s[2..] == tail
            else s == [seg[0]] + tail && s[1..] == tail
  {
    var body := Escape(seg[1..]);
    var head := if seg[0] == DOT then [BACKSLASH, DOT] else [seg[0]];
    assert Escape(seg) == head + body;
    hide Escape;
    InFront(head, body, rest);
  }

  /** Reading an escaped segment in front of a rest that does not turn its last character into an escape. */
  lemma {:induction false} SegmentsEscape(seg: string, rest: string)
    requires rest == "" || (rest[0] == DOT && !EndsInBackslash(seg))
    ensures Segments(Escape(seg) + rest) == [seg + Segments(rest)[0]] + Segments(rest)[1..]
  {
    hide Prepend;
    var r := Segments(rest);
    if seg == "" {
      assert Escape(seg) + rest == rest;
      assert "" + r[0] == r[0];
    } else {
      var tail := seg[1..];
      assert !EndsInBackslash(seg) ==> !EndsInBackslash(tail);
      hide Escape;
      SegmentsEscape(tail, rest);
      EscapedStart(seg, rest);
      PrependToFirst(seg[0], seg, r);
      if seg[0] != DOT {
        // the character after seg[0] is a dot only where seg ends, and then seg[0] is no backslash
        if tail == "" { NothingEscaped(rest); } else { EscapedStart(tail, rest); }
        assert !EscapedDot(Escape(seg) + rest);
      }
    }
  }

  lemma NothingEscaped(rest: string)
    ensures Escape("") + rest == rest
  {
  }

  lemma {:induction false} SegmentsUnparse(segs: seq<string>)
    requires |segs| > 0 && Clean(segs)
    ensures Segments(Unparse(segs)) == segs
  {
    if |segs| == 1 {
      assert Escape(segs[0]) + "" == Escape(segs[0]);
      SegmentsEscape(segs[0], "");
      assert segs[0] + "" == segs[0];
    } else {
      var rest := [DOT] + Unparse(segs[1..]);
      SegmentsUnparse(segs[1..]);
      assert Unparse(segs) == Escape(segs[0]) + rest;
      assert rest[1..] == Unparse(segs[1..]);
      SegmentsEscape(segs[0], rest);
      assert Segments(rest) == [""] + segs[1..];
      assert segs[0] + "" == segs[0];
    }
  }

  /** Parsing what Unparse wrote restores the list exactly for the writable lists: a backslash at the end of a
      segment other than the last swallows the dot behind it, and the single empty segment is written as the
      empty path. */
  lemma ParseUnparse(segs: seq<string>)
    ensures Parsed(Unparse(segs)) == segs <==> Writable(segs)
  {
    if segs == [] {
    } else if Writable(segs) {
      SegmentsUnparse(segs);
    } else if Parsed(Unparse(segs)) == segs {
      if Unparse(segs) != "" { FirstSegment(Unparse(segs)); }
      SegmentsClean(Unparse(segs));
    }
  }

  /** The writable lists are exactly the ones some path parses to. */
  lemma ParseImage(segs: seq<string>)
    ensures (exists p :: Parsed(p) == segs) <==> Writable(segs)
  {
    if Writable(segs) {
      ParseUnparse(segs);
      assert Parsed(Unparse(segs)) == segs;
    }
    if p :| Parsed(p) == segs {
      if p != "" {
        FirstSegment(p);
        SegmentsClean(p);
      }
    }
  }

  predicate HasEscapedDot(s: string) {
    exists i :: 0 <= i < |s| - 1 && s[i] == BACKSLASH && s[i + 1] == DOT
  }

  lemma {:induction false} SplitCount(s: string)
    ensures |Segments(s)| <= |Split(s)|
    ensures Segments(s) == Split(s) <==> !HasEscapedDot(s)
    ensures HasEscapedDot(s) ==> |Segments(s)| < |Split(s)|
  {
    if s == "" {
    } else if EscapedDot(s) {
      SplitCount(s[2..]);
      assert s[1..][0] == DOT && s[1..][1..] == s[2..];
      assert Split(s[1..]) == [""] + Split(s[2..]);
      assert |Split(s)| == |Split(s[2..])| + 1;
      assert s[0] == BACKSLASH && s[0 + 1] == DOT;
      assert HasEscapedDot(s);
    } else {
      var t := s[1..];
      SplitCount(t);
      assert HasEscapedDot(s) <==> HasEscapedDot(t) by {
        if HasEscapedDot(t) {
          var i :| 0 <= i < |t| - 1 && t[i] == BACKSLASH && t[i + 1] == DOT;
          assert s[i + 1] == BACKSLASH && s[i + 1 + 1] == DOT;
        }
        if HasEscapedDot(s) {
          var i :| 0 <= i < |s| - 1 && s[i] == BACKSLASH && s[i + 1] == DOT;
          assert i != 0;
          assert t[i - 1] == BACKSLASH && t[i - 1 + 1] == DOT;
        }
      }
    }
  }

  /** The two parsers of the repository agree exactly on the paths without an escaped dot. */
  lemma ParsersAgree(path: string)
    ensures Parsed(path) == PlainParsed(path) <==> !HasEscapedDot(path)
  {
    SplitCount(path);
  }

  /** The plain split cuts at every dot and nowhere else. */
  lemma {:induction false} SplitPlain(seg: string)
    requires DOT !in seg
    ensures Split(seg) == [seg]
  {
    if seg != "" {
      SplitPlain(seg[1..]);
      assert [seg[0]] + seg[1..] == seg;
    }
  }

  lemma {:induction false} SplitAtDot(seg: string, rest: string)
    requires DOT !in seg
    ensures Split(seg + [DOT] + rest) == [seg] + Split(rest)
  {
    var s := seg + [DOT] + rest;
    if seg == "" {
      assert s[1..] == rest;
    } else {
      SplitAtDot(seg[1..], rest);
      assert s[1..] == seg[1..] + [DOT] + rest;
      assert [seg[0]] + seg[1..] == seg;
    }
  }
}
