/**
 * The folded-stack key built for one allocation event in the runnable of
 * Main.main: "java;", one "type:.method;" per frame from the outermost caller
 * to the allocating frame, then the translated allocated type.
 */
module FoldedStacks {
  import opened Wrappers
  import opened Text
  import opened TypeNames

  /** A recorded stack frame: the declaring type of its method and the method name. */
  datatype Frame = Frame(typeName: string, methodName: string)

  /** The tag every key starts with. */
  const Tag: string := "java;"

  /** One frame as it appears in a key, the type's dots turned into slashes. */
  function FrameText(f: Frame): string
  {
    Replace(f.typeName, '.', '/') + ":." + f.methodName + ";"
  }

  /**
   * The frames of a stack captured innermost first, written outermost first:
   * the first captured frame is the last one written.
   */
  function StackText(frames: seq<Frame>): string
  {
    if frames == [] then "" else StackText(frames[1..]) + FrameText(frames[0])
  }

  /** The frames written in the order given, as a flamegraph reads a stack. */
  function RootToLeafText(frames: seq<Frame>): string
  {
    if frames == [] then "" else FrameText(frames[0]) + RootToLeafText(frames[1..])
  }

  function Reverse<T>(s: seq<T>): (r: seq<T>)
    ensures |r| == |s| && forall i :: 0 <= i < |s| ==> r[i] == s[|s| - 1 - i]
  {
    if s == [] then [] else Reverse(s[1..]) + [s[0]]
  }

  /** The key of an event, or None where translate throws on the allocated type. */
  function FoldedKey(frames: seq<Frame>, objectClass: string): (r: Option<string>)
    ensures r.None? <==> Translation(objectClass).None?
  {
    match Translation(objectClass)
    case None => None
    case Some(t) => Some(Tag + StackText(frames) + t)
  }

  /** Writing a stack splits over a concatenation of captured frames, in reverse. */
  lemma {:induction false} StackTextAppend(a: seq<Frame>, b: seq<Frame>)
    ensures StackText(a + b) == StackText(b) + StackText(a)
  {
    if a == [] {
      assert a + b == b;
    } else {
      var head, tail := FrameText(a[0]), StackText(a[1..]);
      assert (a + b)[1..] == a[1..] + b && (a + b)[0] == a[0];
      assert StackText(a + b) == StackText(a[1..] + b) + head;
      StackTextAppend(a[1..], b);
      ConcatAssociative(StackText(b), tail, head);
    }
  }

  /** Appending a frame's pieces one at a time appends its text. */
  lemma AppendFrame(before: string, f: Frame)
    ensures before + Replace(f.typeName, '.', '/') + ":." + f.methodName + ";" == before + FrameText(f)
  {
    var name := Replace(f.typeName, '.', '/');
    ConcatAssociative(before, name, ":.");
    ConcatAssociative(before, name + ":.", f.methodName);
    ConcatAssociative(before, name + ":." + f.methodName, ";");
  }

  /** Keys list the captured frames reversed: outermost caller first. */
  lemma {:induction false} StackTextIsReversed(frames: seq<Frame>)
    ensures StackText(frames) == RootToLeafText(Reverse(frames))
  {
    if frames != [] {
      StackTextIsReversed(frames[1..]);
      RootToLeafAppend(Reverse(frames[1..]), [frames[0]]);
      assert RootToLeafText([frames[0]]) == FrameText(frames[0]);
    }
  }

  lemma {:induction false} RootToLeafAppend(a: seq<Frame>, b: seq<Frame>)
    ensures RootToLeafText(a + b) == RootToLeafText(a) + RootToLeafText(b)
  {
    if a == [] {
      assert a + b == b;
    } else {
      var head, tail := FrameText(a[0]), RootToLeafText(a[1..]);
      assert (a + b)[1..] == a[1..] + b && (a + b)[0] == a[0];
      assert RootToLeafText(a + b) == head + RootToLeafText(a[1..] + b);
      RootToLeafAppend(a[1..], b);
      ConcatAssociative(head, tail, RootToLeafText(b));
    }
  }

  /** Every key starts with the tag and ends with the translated allocated type. */
  lemma FoldedKeyFrame(frames: seq<Frame>, objectClass: string)
    requires ArrayDepth(objectClass) < |objectClass|
    ensures FoldedKey(frames, objectClass).Some?
    ensures var key := FoldedKey(frames, objectClass).value;
      var t := Translation(objectClass).value;
      key[..|Tag|] == Tag && |key| >= |Tag| + |t| && key[|key| - |t|..] == t
  {
  }

  /** A stack captured leaf first as [C.c, B.b, A.a] is written A, B, C. */
  lemma StackExample()
    ensures StackText([Frame("C", "c"), Frame("B", "b"), Frame("A", "a")]) == "A:.a;B:.b;C:.c;"
  {
    assert "A:.a;" + "B:.b;" == "A:.a;B:.b;" && "A:.a;B:.b;" + "C:.c;" == "A:.a;B:.b;C:.c;";
    var frames := [Frame("C", "c"), Frame("B", "b"), Frame("A", "a")];
    assert Replace("A", '.', '/') == "A" && Replace("B", '.', '/') == "B" && Replace("C", '.', '/') == "C";
    assert StackText(frames[2..]) == "A:.a;";
    assert StackText(frames[1..]) == "A:.a;B:.b;";
  }

  /** The same stack with an int allocation. */
  lemma KeyExample()
    ensures FoldedKey([Frame("C", "c"), Frame("B", "b"), Frame("A", "a")], "I")
         == Some("java;A:.a;B:.b;C:.c;int")
  {
    assert Tag + "A:.a;B:.b;C:.c;" + "int" == "java;A:.a;B:.b;C:.c;int";
    StackExample();
    PrimitiveExamples();
  }

  /**
   * The key construction as the runnable runs it: a StringBuilder filled by a
   * loop over the frame indices from the last captured down to the first.
   */
  method BuildKey(frames: seq<Frame>, objectClass: string) returns (key: Option<string>)
    ensures key == FoldedKey(frames, objectClass)
  {
    var sb := Tag;
    var i := |frames|;
    while i > 0
      invariant 0 <= i <= |frames|
      invariant sb == Tag + StackText(frames[i..])
    {
      i := i - 1;
      ghost var before := sb;
      sb := sb + Replace(frames[i].typeName, '.', '/');
      sb := sb + ":.";
      sb := sb + frames[i].methodName;
      sb := sb + ";";
      AppendFrame(before, frames[i]);
      assert frames[i..][1..] == frames[i + 1..];
      ConcatAssociative(Tag, StackText(frames[i + 1..]), FrameText(frames[i]));
    }
    assert frames[0..] == frames;
    var t := Translate(objectClass);
    if t == None {
      return None;
    }
    sb := sb + t.value;
    key := Some(sb);
  }
}
