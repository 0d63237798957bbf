/**
 Which differences block, said on key paths. The code tests the dotted text of a path; as long
 as no key is empty or contains a dot itself, the text determines the path, and the tests mean
 what they look like.
 */
module DriftPolicy {
  import opened Drift
  import opened DriftReceipt
  import opened Json

  /** A key that cannot be confused with a longer path. */
  predicate Plainly(k: string) {
    k != "" && '.' !in k
  }

  predicate PlainPath(path: seq<string>) {
    path != [] && forall i | 0 <= i < |path| :: Plainly(path[i])
  }

  lemma {:induction false} RenderInhabited(path: seq<string>)
    requires PlainPath(path)
    ensures Render(path) != ""
    ensures |path| == 1 ==> Render(path) == path[0]
    ensures |path| > 1 ==> Render(path) == Render(path[..|path| - 1]) + "." + path[|path| - 1]
    decreases |path|
  {
    if |path| == 1 {
      assert path[..0] == [] && Render([]) == "";
    } else {
      RenderInhabited(path[..|path| - 1]);
    }
  }

  lemma Join(a: string, b: string, c: string)
    ensures a + "." + b + "." + c == a + "." + (b + "." + c)
  {
  }

  lemma {:induction false} RenderSplit(path: seq<string>)
    requires PlainPath(path) && |path| > 1
    ensures Render(path) == path[0] + "." + Render(path[1..])
    decreases |path|
  {
    var n := |path| - 1;
    var front, back := path[..n], path[1..];
    RenderInhabited(path);
    RenderInhabited(front);
    RenderInhabited(back);
    if n > 1 {
      RenderSplit(front);
      assert front[1..] == back[..n - 1];
      Join(path[0], Render(front[1..]), path[n]);
    }
  }

  function FirstDot(s: string): nat {
    if s == "" || s[0] == '.' then 0 else 1 + FirstDot(s[1..])
  }

  lemma {:induction false} FirstDotAt(k: string, tail: string)
    requires '.' !in k
    ensures FirstDot(k + "." + tail) == |k|
    decreases |k|
  {
    if k != "" {
      FirstDotAt(k[1..], tail);
      assert (k + "." + tail)[1..] == k[1..] + "." + tail;
    }
  }

  function LastDot(s: string): int {
    if s == "" then -1 else if s[|s| - 1] == '.' then |s| - 1 else LastDot(s[..|s| - 1])
  }

  lemma {:induction false} LastDotAt(front: string, last: string)
    requires '.' !in last
    ensures LastDot(front + "." + last) == |front|
    decreases |last|
  {
    if last == "" {
      assert front + "." + last == front + ".";
    } else {
      var n := |last| - 1;
      LastDotAt(front, last[..n]);
      assert (front + "." + last)[..|front| + 1 + n] == front + "." + last[..n];
    }
  }

  lemma DotInside(front: string, back: string, s: string)
    ensures front + "." <= s ==> '.' in s
    ensures EndsWith(s, "." + back) ==> '.' in s
    ensures s == front + "." + back ==> '.' in s
  {
    if front + "." <= s { assert s[|front|] == '.'; }
    if EndsWith(s, "." + back) { assert s[|s| - |back| - 1] == s[|s| - |back| - 1..][0] == '.'; }
    if s == front + "." + back { assert s[|front|] == '.'; }
  }

  /** The part before the first dot is determined. */
  lemma FirstPart(name: string, rest: string, k: string, tail: string)
    requires '.' !in name && '.' !in k
    ensures name + "." <= k + "." + tail <==> name == k
    ensures name + "." + rest == k + "." + tail <==> name == k && rest == tail
  {
    var whole := k + "." + tail;
    FirstDotAt(k, tail);
    if name + "." <= whole {
      FirstDotAt(name, whole[|name| + 1..]);
      assert whole == name + "." + whole[|name| + 1..];
      assert name == whole[..|name|] && k == whole[..|k|];
    }
    if name + "." + rest == whole {
      FirstDotAt(name, rest);
      assert name == whole[..|name|] && k == whole[..|k|];
      assert rest == whole[|name| + 1..] && tail == whole[|k| + 1..];
    }
  }

  /** A name with a dot behind it begins the text exactly when it is the first of several keys. */
  lemma BeginsUnder(name: string, path: seq<string>)
    requires '.' !in name && PlainPath(path)
    ensures name + "." <= Render(path) <==> |path| > 1 && path[0] == name
  {
    RenderInhabited(path);
    if |path| > 1 {
      RenderSplit(path);
      FirstPart(name, "", path[0], Render(path[1..]));
    } else {
      DotInside(name, "", path[0]);
    }
  }

  /** The text is one key exactly when the path is; and two keys likewise. */
  lemma OneKeyText(name: string, path: seq<string>)
    requires '.' !in name && PlainPath(path)
    ensures Render(path) == name <==> path == [name]
  {
    RenderInhabited(path);
    if |path| == 1 {
      assert path == [path[0]];
    } else {
      assert Render(path)[|Render(path[..|path| - 1])|] == '.';
    }
  }

  lemma TwoKeyText(first: string, second: string, path: seq<string>)
    requires '.' !in first && '.' !in second && PlainPath(path)
    ensures Render(path) == first + "." + second <==> path == [first, second]
  {
    RenderInhabited(path);
    if |path| > 1 {
      RenderSplit(path);
      FirstPart(first, second, path[0], Render(path[1..]));
      OneKeyText(second, path[1..]);
      assert path == [path[0]] + path[1..];
    } else {
      DotInside(first, second, path[0]);
    }
  }

  /** A dotted name ends the text exactly when it is the last of several keys. */
  lemma EndsUnder(name: string, path: seq<string>)
    requires '.' !in name && PlainPath(path)
    ensures EndsWith(Render(path), "." + name) <==> |path| > 1 && path[|path| - 1] == name
  {
    RenderInhabited(path);
    if |path| == 1 {
      DotInside("", name, path[0]);
    } else {
      LastPart(Render(path[..|path| - 1]), path[|path| - 1], name);
    }
  }

  lemma LastPart(front: string, last: string, name: string)
    requires '.' !in last && '.' !in name
    ensures EndsWith(front + "." + last, "." + name) <==> last == name
  {
    var text := front + "." + last;
    if EndsWith(text, "." + name) {
      var at := |text| - |name| - 1;
      assert text == text[..at] + "." + name by { assert text == text[..at] + text[at..]; }
      LastDotAt(front, last);
      LastDotAt(text[..at], name);
      assert last == text[|front| + 1..] && name == text[at + 1..];
    }
    if last == name { assert text[|front|..] == "." + name; }
  }

  /** A lane of the first list that the second has no equal of. */
  ghost predicate LosesALane(before: Json, after: Json) {
    exists x :: x in Lanes(before) && EqualToNone(x, Lanes(after))
  }

  /** A difference of the assurance section that blocks: a blocking policy other than the one
      sentence; assurance switched off; a lane taken away. */
  ghost predicate WeakensAssurance(d: Diff) {
    || (d.path == ["extended_assurance", "blocking_policy"]
        && !PyEq(d.after, JStr("only explicitly required lanes can block release")))
    || (d.path == ["extended_assurance", "status"] && PyEq(d.after, JStr("disabled")))
    || (d.path == ["extended_assurance", "lanes"] && d.kind == Changed && LosesALane(d.before, d.after))
  }

  /** The differences that block: anything under authority; a key called schema anywhere; a
      removal under features; and what weakens the assurance. */
  ghost predicate MustBlock(d: Diff)
    requires d.path != []
  {
    || (|d.path| > 1 && d.path[0] == "authority")
    || d.path[|d.path| - 1] == "schema"
    || (|d.path| > 1 && d.path[0] == "features" && d.kind == Removed)
    || WeakensAssurance(d)
  }

  lemma LaneLost(before: Json, after: Json)
    ensures LaneRemoved(before, after) <==> LosesALane(before, after)
  {
    var b := Lanes(before);
    if LosesALane(before, after) {
      var x :| x in b && EqualToNone(x, Lanes(after));
      var i :| 0 <= i < |b| && b[i] == x;
    }
    if LaneRemoved(before, after) {
      var i :| 0 <= i < |b| && EqualToNone(b[i], Lanes(after));
      assert b[i] in b;
    }
  }

  lemma LastKeyText(name: string, dotted: string, path: seq<string>)
    requires '.' !in name && dotted == "." + name && PlainPath(path)
    ensures Render(path) == name || EndsWith(Render(path), dotted) <==> path[|path| - 1] == name
  {
    OneKeyText(name, path);
    EndsUnder(name, path);
    if |path| == 1 { assert path == [path[0]]; }
  }

  lemma SectionText(name: string, dotted: string, path: seq<string>)
    requires '.' !in name && dotted == name + "." && PlainPath(path)
    ensures dotted <= Render(path) <==> |path| > 1 && path[0] == name
  {
    BeginsUnder(name, path);
  }

  lemma AssuranceText(field: string, dotted: string, path: seq<string>)
    requires '.' !in field && dotted == "extended_assurance" + "." + field && PlainPath(path)
    ensures Render(path) == dotted <==> path == ["extended_assurance", field]
  {
    TwoKeyText("extended_assurance", field, path);
  }

  ghost predicate WeakensByText(text: string, d: Diff) {
    || (text == "extended_assurance.blocking_policy"
        && !PyEq(d.after, JStr("only explicitly required lanes can block release")))
    || (text == "extended_assurance.status" && PyEq(d.after, JStr("disabled")))
    || (text == "extended_assurance.lanes" && d.kind == Changed && LaneRemoved(d.before, d.after))
  }

  ghost predicate BlocksByText(text: string, d: Diff) {
    || "authority." <= text
    || text == "schema" || EndsWith(text, ".schema")
    || ("features." <= text && d.kind == Removed)
    || WeakensByText(text, d)
  }

  lemma SeverityByText(d: Diff)
    requires Render(d.path) != ""
    ensures Classify(d).1 == if BlocksByText(Render(d.path), d) then "BLOCKED" else "REVIEW_REQUIRED"
  {
    assert Reported(d) == Render(d.path);
  }

  lemma AssuranceTextDecides(d: Diff)
    requires PlainPath(d.path)
    ensures WeakensByText(Render(d.path), d) <==> WeakensAssurance(d)
  {
    AssuranceText("blocking_policy", "extended_assurance.blocking_policy", d.path);
    AssuranceText("status", "extended_assurance.status", d.path);
    AssuranceText("lanes", "extended_assurance.lanes", d.path);
    LaneLost(d.before, d.after);
  }

  lemma TextDecides(d: Diff)
    requires PlainPath(d.path)
    ensures BlocksByText(Render(d.path), d) <==> MustBlock(d)
  {
    LastKeyText("schema", ".schema", d.path);
    SectionText("authority", "authority.", d.path);
    SectionText("features", "features.", d.path);
    AssuranceTextDecides(d);
  }

  /** A difference on a plain path blocks exactly when it must; every other one is for review. */
  lemma BlocksExactly(d: Diff)
    requires PlainPath(d.path)
    ensures Classify(d).1 == if MustBlock(d) then "BLOCKED" else "REVIEW_REQUIRED"
  {
    RenderInhabited(d.path);
    SeverityByText(d);
    TextDecides(d);
  }
}
