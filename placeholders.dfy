/** Templates with {name} placeholders, and what String.replace does to them:
    replacing one placeholder everywhere substitutes exactly its holes and
    leaves the literal text and the other placeholders as they are, and what
    was inserted is not scanned again. */
module Placeholders {
  import opened JavaLang

  /** A piece of a template: literal text, or the placeholder {name}. */
  datatype Segment = Lit(text: string) | Hole(name: string)

  function Placeholder(name: string): string
  {
    "{" + name + "}"
  }

  /** Names that cannot run into another placeholder. */
  predicate ValidName(name: string)
  {
    '{' !in name && '}' !in name
  }

  /** Literal text holds no '{', so only the holes start a placeholder. */
  predicate WellFormedSegments(segs: seq<Segment>)
  {
    forall k :: 0 <= k < |segs| ==>
      (segs[k].Lit? ==> '{' !in segs[k].text) && (segs[k].Hole? ==> ValidName(segs[k].name))
  }

  function SegmentText(s: Segment): string
  {
    match s
    case Lit(text) => text
    case Hole(name) => Placeholder(name)
  }

  /** The template's text. */
  function Join(segs: seq<Segment>): string
  {
    if segs == [] then "" else SegmentText(segs[0]) + Join(segs[1..])
  }

  /** Every hole named name replaced by the segments r. */
  function Fill(segs: seq<Segment>, name: string, r: seq<Segment>): seq<Segment>
  {
    if segs == [] then []
    else (if segs[0] == Hole(name) then r else [segs[0]]) + Fill(segs[1..], name, r)
  }

  lemma {:induction false} JoinAppend(a: seq<Segment>, b: seq<Segment>)
    ensures Join(a + b) == Join(a) + Join(b)
    decreases |a|
  {
    if a == [] {
      assert a + b == b;
    } else {
      assert (a + b)[0] == a[0] && (a + b)[1..] == a[1..] + b;
      JoinAppend(a[1..], b);
    }
  }

  lemma {:induction false} FillAppend(a: seq<Segment>, b: seq<Segment>, name: string, r: seq<Segment>)
    ensures Fill(a + b, name, r) == Fill(a, name, r) + Fill(b, name, r)
    decreases |a|
  {
    if a == [] {
      assert a + b == b;
    } else {
      assert (a + b)[0] == a[0] && (a + b)[1..] == a[1..] + b;
      FillAppend(a[1..], b, name, r);
    }
  }

  /** Filling well-formed holes with well-formed segments keeps the template
      well formed. */
  lemma {:induction false} FillWellFormed(segs: seq<Segment>, name: string, r: seq<Segment>)
    requires WellFormedSegments(segs) && WellFormedSegments(r)
    ensures WellFormedSegments(Fill(segs, name, r))
    decreases |segs|
  {
    if segs != [] {
      FillWellFormed(segs[1..], name, r);
      var head := if segs[0] == Hole(name) then r else [segs[0]];
      var f := head + Fill(segs[1..], name, r);
      forall k | 0 <= k < |f|
        ensures (f[k].Lit? ==> '{' !in f[k].text) && (f[k].Hole? ==> ValidName(f[k].name))
      {
        if k >= |head| {
          assert f[k] == Fill(segs[1..], name, r)[k - |head|];
        }
      }
    }
  }

  /** Two different placeholders differ within the shorter one, so neither is
      a prefix of text starting with the other. */
  lemma PlaceholderNotPrefix(m: string, n: string, b: string)
    requires ValidName(m) && ValidName(n) && m != n
    ensures !(Placeholder(n) <= Placeholder(m) + b)
  {
    var target := Placeholder(n);
    var s := Placeholder(m) + b;
    var k: nat;
    if |n| < |m| {
      k := |n| + 1;
      assert s[k] == m[|n|] != '}' == target[k];
    } else if |n| > |m| {
      k := |m| + 1;
      assert target[k] == n[|m|] != '}' == s[k];
    } else {
      var j :| 0 <= j < |m| && m[j] != n[j];
      k := j + 1;
      assert s[k] == m[j] && target[k] == n[j];
    }
    assert k < |target| && k < |s| && s[k] != target[k];
  }

  /** A placeholder other than the target is copied: the target cannot start at
      its '{', and no other '{' comes before the rest. */
  lemma OtherPlaceholderSkipped(m: string, n: string, b: string, repl: string)
    requires ValidName(m) && ValidName(n) && m != n
    ensures Replace(Placeholder(m) + b, Placeholder(n), repl) == Placeholder(m) + Replace(b, Placeholder(n), repl)
  {
    var target := Placeholder(n);
    var p := Placeholder(m);
    var s := p + b;
    PlaceholderNotPrefix(m, n, b);
    var tail := m + "}";
    assert '{' !in tail;
    assert p == ['{'] + tail;
    assert s[1..] == tail + b;
    if |s| < |target| {
      assert |b| < |target|;
      assert Replace(b, target, repl) == b;
    } else {
      assert Replace(s, target, repl) == [s[0]] + Replace(s[1..], target, repl);
      ReplaceSkipsPrefix(tail, b, target, repl);
      assert [s[0]] + tail == p;
    }
  }

  /** String.replace of a placeholder on a template fills exactly its holes. */
  lemma {:induction false} ReplaceFills(segs: seq<Segment>, name: string, r: seq<Segment>)
    requires WellFormedSegments(segs) && ValidName(name)
    ensures Replace(Join(segs), Placeholder(name), Join(r)) == Join(Fill(segs, name, r))
    decreases |segs|
  {
    var target := Placeholder(name);
    if segs == [] {
      assert Replace("", target, Join(r)) == "";
    } else {
      var rest := Join(segs[1..]);
      ReplaceFills(segs[1..], name, r);
      var head := if segs[0] == Hole(name) then r else [segs[0]];
      JoinAppend(head, Fill(segs[1..], name, r));
      match segs[0]
      case Lit(text) =>
        ReplaceSkipsPrefix(text, rest, target, Join(r));
        assert Join([segs[0]]) == text + Join([]);
      case Hole(m) =>
        if m == name {
          ReplaceAtFront(rest, target, Join(r));
        } else {
          OtherPlaceholderSkipped(m, name, rest, Join(r));
          assert Join([segs[0]]) == Placeholder(m) + Join([]);
        }
    }
  }
}
