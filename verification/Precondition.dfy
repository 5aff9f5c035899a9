/** If-Match on a PUT (serving/precondition.go; section 13.1.1 of RFC 9110). */
module Precondition {
  import opened Decimal

  datatype IfMatch = Absent | Pass | Fail
  datatype Verdict = Proceed | PreconditionFailed | Conflict

  /** unicode.IsSpace, as used by strings.TrimSpace. */
  predicate IsSpace(c: char) {
    || c == ' ' || '\t' <= c <= '\r' || c == '\U{85}' || c == '\U{A0}' || c == '\U{1680}'
    || '\U{2000}' <= c <= '\U{200A}' || c == '\U{2028}' || c == '\U{2029}' || c == '\U{202F}'
    || c == '\U{205F}' || c == '\U{3000}'
  }

  function TrimLeft(s: string): string {
    if s != "" && IsSpace(s[0]) then TrimLeft(s[1..]) else s
  }

  function TrimRight(s: string): string {
    if s != "" && IsSpace(s[|s| - 1]) then TrimRight(s[..|s| - 1]) else s
  }

  function TrimSpace(s: string): string {
    TrimRight(TrimLeft(s))
  }

  /** strings.Split(s, ",") */
  function Split(s: string): (parts: seq<string>)
    ensures |parts| > 0
  {
    if s == "" then [""]
    else
      var rest := Split(s[1..]);
      if s[0] == ',' then [""] + rest else [[s[0]] + rest[0]] + rest[1..]
  }

  /** The trimmed, non-empty members of a list of header parts. */
  function Tags(parts: seq<string>): seq<string> {
    if parts == [] then []
    else
      var tag := TrimSpace(parts[0]);
      (if tag != "" then [tag] else []) + Tags(parts[1..])
  }

  lemma {:induction false} TagsAppend(parts: seq<string>, last: string)
    ensures Tags(parts + [last]) == Tags(parts) + (if TrimSpace(last) != "" then [TrimSpace(last)] else [])
  {
    if parts == [] {
      assert parts + [last] == [last];
    } else {
      TagsAppend(parts[1..], last);
      assert (parts + [last])[1..] == parts[1..] + [last];
    }
  }

  method SplitETagList(header: string) returns (tags: seq<string>)
    ensures tags == Tags(Split(header))
  {
    var parts := Split(header);
    tags := [];
    for i := 0 to |parts|
      invariant tags == Tags(parts[..i])
    {
      var p := TrimSpace(parts[i]);
      TagsAppend(parts[..i], parts[i]);
      assert parts[..i + 1] == parts[..i] + [parts[i]];
      if p != "" {
        tags := tags + [p];
      }
    }
    assert parts[..|parts|] == parts;
  }

  function RevisionETag(revision: int): string {
    "\"" + Itoa(revision) + "\""
  }

  /** evaluateIfMatch: `stored` is the revision of the indexed object, None when there is none. */
  function EvaluateIfMatch(header: string, stored: Option<int>): IfMatch {
    var h := TrimSpace(header);
    if h == "" then Absent
    else if h == "*" then (if stored.Some? then Pass else Fail)
    else if stored.None? then Fail
    else if RevisionETag(stored.value) in Tags(Split(h)) then Pass
    else Fail
  }

  /** checkConditionalWrite: 412 is decided before 409. */
  function CheckConditionalWrite(header: string, stored: Option<int>, incoming: int): Verdict {
    if EvaluateIfMatch(header, stored) == Fail then PreconditionFailed
    else if stored.Some? && stored.value >= incoming then Conflict
    else Proceed
  }

  /** The comparison loop of evaluateIfMatch, over the tags the splitting loop produced. */
  method HeaderLists(header: string, current: string) returns (listed: bool)
    ensures listed <==> current in Tags(Split(header))
  {
    var tags := SplitETagList(header);
    for i := 0 to |tags|
      invariant current !in tags[..i]
    {
      if tags[i] == current { return true; }
    }
    return false;
  }

  method EvaluateIfMatchLoop(header: string, stored: Option<int>) returns (r: IfMatch)
    ensures r == EvaluateIfMatch(header, stored)
  {
    var h := TrimSpace(header);
    if h == "" { return Absent; }
    if h == "*" { return if stored.Some? then Pass else Fail; }
    if stored.None? { return Fail; }
    var listed := HeaderLists(h, RevisionETag(stored.value));
    return if listed then Pass else Fail;
  }

  // ---- What a header written from revision tags means ----

  /** No comma, no space and not empty: what every revision tag is. */
  predicate Plain(s: string) {
    s != "" && forall i | 0 <= i < |s| :: s[i] != ',' && !IsSpace(s[i])
  }

  lemma RevisionETagPlain(revision: int)
    ensures Plain(RevisionETag(revision)) && RevisionETag(revision)[0] == '"'
  {
    var s := Itoa(revision);
    forall i | 0 <= i < |s| ensures IsDigit(s[i]) || s[i] == '-' {
      assert revision < 0 ==> s[1..] == Digits(-revision);
      assert i > 0 && revision < 0 ==> s[i] == s[1..][i - 1];
    }
  }

  lemma RevisionETagInjective(a: int, b: int)
    requires RevisionETag(a) == RevisionETag(b)
    ensures a == b
  {
    assert RevisionETag(a)[1..|RevisionETag(a)| - 1] == Itoa(a);
    assert RevisionETag(b)[1..|RevisionETag(b)| - 1] == Itoa(b);
    ItoaInjective(a, b);
  }

  lemma {:induction false} SplitPlain(s: string)
    requires forall i | 0 <= i < |s| :: s[i] != ','
    ensures Split(s) == [s]
  {
    if s != "" {
      SplitPlain(s[1..]);
      assert [s[0]] + s[1..] == s;
    }
  }

  lemma {:induction false} SplitFirst(s: string, rest: string)
    requires forall i | 0 <= i < |s| :: s[i] != ','
    ensures Split(s + "," + rest) == [s] + Split(rest)
  {
    if s == "" {
      assert (s + "," + rest)[1..] == rest;
    } else {
      SplitFirst(s[1..], rest);
      assert (s + "," + rest)[1..] == s[1..] + "," + rest;
      assert [s[0]] + s[1..] == s;
    }
  }

  /** Entity tags listed the way clients write them: `"1", "4", "7"`. */
  function TagList(tags: seq<string>): string
    requires tags != []
  {
    if |tags| == 1 then tags[0] else tags[0] + "," + (" " + TagList(tags[1..]))
  }

  function TagsOf(revisions: seq<int>): seq<string> {
    seq(|revisions|, i requires 0 <= i < |revisions| => RevisionETag(revisions[i]))
  }

  lemma {:induction false} TagListEnds(tags: seq<string>)
    requires tags != [] && forall i | 0 <= i < |tags| :: Plain(tags[i])
    ensures var h := TagList(tags);
            h != "" && !IsSpace(h[0]) && !IsSpace(h[|h| - 1]) && tags[0] != "" && h[0] == tags[0][0]
  {
    if |tags| > 1 {
      TagListEnds(tags[1..]);
    }
  }

  lemma TrimIndented(indent: string, tag: string)
    requires Plain(tag) && (indent == "" || indent == " ")
    ensures TrimSpace(indent + tag) == tag
  {
    if indent == " " {
      assert (indent + tag)[1..] == tag;
    } else {
      assert indent + tag == tag;
    }
    assert TrimLeft(indent + tag) == tag;
  }

  lemma TagListSplits(tags: seq<string>, indent: string)
    requires |tags| > 1
    ensures indent + TagList(tags) == (indent + tags[0]) + "," + (" " + TagList(tags[1..]))
  {
  }

  lemma NoCommaIn(indent: string, tag: string)
    requires Plain(tag) && (indent == "" || indent == " ")
    ensures forall i | 0 <= i < |indent + tag| :: (indent + tag)[i] != ','
  {
  }

  lemma {:induction false} TagsOfTagList(tags: seq<string>, indent: string)
    requires tags != [] && forall i | 0 <= i < |tags| :: Plain(tags[i])
    requires indent == "" || indent == " "
    ensures Tags(Split(indent + TagList(tags))) == tags
  {
    var first := indent + tags[0];
    TrimIndented(indent, tags[0]);
    NoCommaIn(indent, tags[0]);
    if |tags| == 1 {
      SplitPlain(first);
      assert Tags([first]) == [tags[0]] + Tags([]);
    } else {
      TagListSplits(tags, indent);
      TagsOfLonger(first, tags[0], " " + TagList(tags[1..]));
      TagsOfTagList(tags[1..], " ");
    }
  }

  lemma TagsOfLonger(first: string, tag: string, rest: string)
    requires TrimSpace(first) == tag != ""
    requires forall i | 0 <= i < |first| :: first[i] != ','
    ensures Tags(Split(first + "," + rest)) == [tag] + Tags(Split(rest))
  {
    SplitFirst(first, rest);
    assert ([first] + Split(rest))[1..] == Split(rest);
  }

  lemma TagsOfPlain(revisions: seq<int>)
    ensures forall i | 0 <= i < |revisions| :: Plain(TagsOf(revisions)[i])
    ensures forall r :: RevisionETag(r) in TagsOf(revisions) <==> r in revisions
  {
    var tags := TagsOf(revisions);
    forall i | 0 <= i < |revisions| ensures Plain(tags[i]) {
      RevisionETagPlain(revisions[i]);
    }
    forall r ensures RevisionETag(r) in tags <==> r in revisions {
      if r in revisions {
        var i :| 0 <= i < |revisions| && revisions[i] == r;
        assert tags[i] == RevisionETag(r);
      } else if RevisionETag(r) in tags {
        var i :| 0 <= i < |tags| && tags[i] == RevisionETag(r);
        RevisionETagInjective(revisions[i], r);
      }
    }
  }

  /** A list of revision tags is satisfied exactly when the object exists at one of those revisions. */
  lemma IfMatchListIsMembership(revisions: seq<int>, stored: Option<int>)
    requires revisions != []
    ensures EvaluateIfMatch(TagList(TagsOf(revisions)), stored) ==
            if stored.Some? && stored.value in revisions then Pass else Fail
  {
    var tags := TagsOf(revisions);
    var h := TagList(tags);
    TagsOfPlain(revisions);
    TagListEnds(tags);
    RevisionETagPlain(revisions[0]);
    assert TrimSpace(h) == h;
    TagsOfTagList(tags, "");
    assert "" + h == h;
  }

  /** "*" asks for any stored object, whatever its revision. */
  lemma StarAsksForExistence(stored: Option<int>)
    ensures EvaluateIfMatch("*", stored) == if stored.Some? then Pass else Fail
  {
    assert TrimSpace("*") == "*";
  }

  /** Spaces and tabs. */
  predicate Blank(s: string) {
    forall i | 0 <= i < |s| :: s[i] == ' ' || s[i] == '\t'
  }

  lemma {:induction false} TrimLeftOfPadded(pad: string, s: string)
    requires Blank(pad)
    ensures TrimLeft(pad + s) == TrimLeft(s)
  {
    if pad == "" {
      assert pad + s == s;
    } else {
      assert (pad + s)[1..] == pad[1..] + s;
      TrimLeftOfPadded(pad[1..], s);
    }
  }

  lemma {:induction false} TrimRightOfPadded(s: string, pad: string)
    requires Blank(pad)
    ensures TrimRight(s + pad) == TrimRight(s)
    decreases |pad|
  {
    if pad == "" {
      assert s + pad == s;
    } else {
      var n := |pad| - 1;
      assert (s + pad)[..|s| + n] == s + pad[..n];
      TrimRightOfPadded(s, pad[..n]);
    }
  }

  lemma {:induction false} TrimLeftBeforePad(s: string, pad: string)
    requires Blank(pad)
    ensures TrimLeft(s + pad) == TrimLeft(s) + (if TrimLeft(s) == "" then "" else pad)
  {
    if s == "" {
      TrimLeftOfPadded(pad, "");
      assert s + pad == pad + "";
    } else if IsSpace(s[0]) {
      assert (s + pad)[1..] == s[1..] + pad;
      TrimLeftBeforePad(s[1..], pad);
    }
  }

  /** White space around a header changes nothing, and a header of nothing else is no header. */
  lemma WhiteSpaceAroundIsIgnored(before: string, header: string, after: string, stored: Option<int>)
    requires Blank(before) && Blank(after)
    ensures EvaluateIfMatch(before + (header + after), stored) == EvaluateIfMatch(header, stored)
    ensures EvaluateIfMatch(before, stored) == Absent
  {
    TrimLeftOfPadded(before, header + after);
    TrimLeftBeforePad(header, after);
    TrimRightOfPadded(TrimLeft(header), after);
    TrimLeftOfPadded(before, "");
    assert before + "" == before;
  }

  /** Strong comparison (section 8.8.3.2 of RFC 9110): a weak tag never matches, not even its own revision. */
  lemma WeakTagNeverMatches(revision: int, stored: Option<int>)
    ensures EvaluateIfMatch("W/" + RevisionETag(revision), stored) == Fail
  {
    var h := "W/" + RevisionETag(revision);
    RevisionETagPlain(revision);
    assert TrimSpace(h) == h;
    SplitPlain(h);
    assert Tags([h]) == [h] + Tags([]);
    if stored.Some? {
      RevisionETagPlain(stored.value);
    }
  }

  /** The whole truth table of a conditional write on one revision tag, in the order RFC 9110 asks for. */
  lemma SingleTagWrite(revision: int, stored: Option<int>, incoming: int)
    ensures var v := CheckConditionalWrite(RevisionETag(revision), stored, incoming);
            && (v == PreconditionFailed <==> stored != Some(revision))
            && (v == Proceed <==> stored == Some(revision) && incoming > revision)
  {
    IfMatchListIsMembership([revision], stored);
    assert TagsOf([revision]) == [RevisionETag(revision)];
  }
}
