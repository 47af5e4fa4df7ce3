/** The class-list helpers of the client's success screen. An element's
    `class` attribute is `None` when absent; `setAttribute` is modelled by
    returning the new attribute text. Splitting and joining follow
    JavaScript's `split(" ")` and `join(" ")`: every single space separates,
    so empty tokens are kept and `"".split(" ")` is `[""]`. */
module ClassList {
  import opened Base

  const Space: char := ' '
  const Hidden: string := "hidden"

  predicate NoSpace(t: string)
  {
    forall i :: 0 <= i < |t| ==> t[i] != Space
  }

  /** Tokens as `split(" ")` produces them: none holds a space. */
  predicate Tokens(ts: seq<string>)
  {
    forall k :: 0 <= k < |ts| ==> NoSpace(ts[k])
  }

  /** `s.split(" ")`. */
  function Split(s: string): (ts: seq<string>)
    ensures |ts| >= 1 && Tokens(ts)
  {
    if s == [] then [""]
    else
      var rest := Split(s[1..]);
      if s[0] == Space then [""] + rest
      else [[s[0]] + rest[0]] + rest[1..]
  }

  /** `ts.join(" ")`. */
  function Join(ts: seq<string>): string
  {
    if ts == [] then ""
    else if |ts| == 1 then ts[0]
    else ts[0] + [Space] + Join(ts[1..])
  }

  /** Joining what was split gives the text back. */
  lemma {:induction false} JoinSplit(s: string)
    ensures Join(Split(s)) == s
  {
    if s != [] {
      JoinSplit(s[1..]);
      var rest := Split(s[1..]);
      if s[0] == Space {
        JoinEmptyFirst(rest);
      } else {
        JoinExtendFirst(s[0], rest);
      }
      assert s == [s[0]] + s[1..];
    }
  }

  /** An empty first token contributes only its separator. */
  lemma {:induction false} JoinEmptyFirst(ts: seq<string>)
    requires |ts| >= 1
    ensures Join([""] + ts) == [Space] + Join(ts)
  {
    assert ([""] + ts)[1..] == ts;
  }

  /** Extending the first token extends the joined text at the front. */
  lemma {:induction false} JoinExtendFirst(c: char, ts: seq<string>)
    requires |ts| >= 1
    ensures Join([[c] + ts[0]] + ts[1..]) == [c] + Join(ts)
  {
    var us := [[c] + ts[0]] + ts[1..];
    if |ts| == 1 {
      assert Join(us) == us[0] by { assert |us| == 1; }
    } else {
      var t, tail := ts[0], Join(ts[1..]);
      assert Join(us) == [c] + t + [Space] + tail by {
        assert |us| > 1 && us[0] == [c] + t && us[1..] == ts[1..];
      }
      assert [c] + t + [Space] + tail == [c] + (t + [Space] + tail);
    }
  }

  /** Splitting what was joined gives the tokens back, when no token holds a
      space; joining no tokens gives "", which splits into one empty token. */
  lemma {:induction false} SplitJoin(ts: seq<string>)
    requires Tokens(ts)
    ensures Split(Join(ts)) == if ts == [] then [""] else ts
  {
    if |ts| == 1 {
      SplitToken(ts[0], []);
      assert ts[0] + [] == ts[0];
    } else if |ts| > 1 {
      var j := Join(ts[1..]);
      SplitJoin(ts[1..]);
      assert Split(j) == ts[1..];
      assert Join(ts) == ts[0] + ([Space] + j);
      SplitToken(ts[0], [Space] + j);
      SplitSpace(j);
      var sp := Split([Space] + j);
      assert sp[0] == "" && sp[1..] == ts[1..];
      assert ts[0] + sp[0] == ts[0];
      assert [ts[0]] + ts[1..] == ts;
    }
  }

  /** A token without spaces is read whole into the first piece. */
  lemma {:induction false} SplitToken(t: string, s: string)
    requires NoSpace(t)
    ensures Split(t + s) == [t + Split(s)[0]] + Split(s)[1..]
  {
    if t != [] {
      assert (t + s)[1..] == t[1..] + s;
      assert (t + s)[0] == t[0];
      SplitToken(t[1..], s);
      assert [t[0]] + (t[1..] + Split(s)[0]) == t + Split(s)[0];
    } else {
      assert t + s == s;
      assert t + Split(s)[0] == Split(s)[0];
      assert Split(s) == [Split(s)[0]] + Split(s)[1..];
    }
  }

  lemma {:induction false} SplitSpace(s: string)
    ensures Split([Space] + s) == [""] + Split(s)
  {
    assert ([Space] + s)[1..] == s;
  }

  /** `getClasses`: a missing attribute reads as "". */
  function GetClasses(attr: Option<string>): (ts: seq<string>)
    ensures |ts| >= 1
    ensures attr.None? ==> ts == [""]
    ensures Join(ts) == attr.GetOr("")
  {
    JoinSplit(attr.GetOr(""));
    Split(attr.GetOr(""))
  }

  /** `filter((e) => e != "hidden")`. */
  function WithoutHidden(ts: seq<string>): (r: seq<string>)
    ensures Hidden !in r
    ensures |r| <= |ts|
    ensures Tokens(ts) ==> Tokens(r)
  {
    if ts == [] then []
    else
      var rest := WithoutHidden(ts[1..]);
      if ts[0] == Hidden then rest else [ts[0]] + rest
  }

  /** The filter keeps every other token, as often as it occurs. */
  lemma {:induction false} WithoutHiddenCounts(ts: seq<string>)
    ensures forall x :: x != Hidden ==> multiset(WithoutHidden(ts))[x] == multiset(ts)[x]
    ensures multiset(WithoutHidden(ts))[Hidden] == 0
  {
    if ts != [] {
      WithoutHiddenCounts(ts[1..]);
      assert ts == [ts[0]] + ts[1..];
      assert multiset(ts) == multiset{ts[0]} + multiset(ts[1..]);
    }
  }

  lemma {:induction false} WithoutHiddenAppend(a: seq<string>, b: seq<string>)
    ensures WithoutHidden(a + b) == WithoutHidden(a) + WithoutHidden(b)
  {
    if a != [] {
      assert (a + b)[1..] == a[1..] + b;
      WithoutHiddenAppend(a[1..], b);
    } else {
      assert a + b == b;
    }
  }

  /** Filtering tokens that hold no "hidden" changes nothing. */
  lemma {:induction false} WithoutHiddenKeeps(ts: seq<string>)
    requires Hidden !in ts
    ensures WithoutHidden(ts) == ts
  {
    if ts != [] {
      WithoutHiddenKeeps(ts[1..]);
    }
  }

  /** `classesMinusHidden`. */
  function ClassesMinusHidden(attr: Option<string>): (ts: seq<string>)
    ensures Hidden !in ts && Tokens(ts)
    ensures forall x :: x != Hidden ==> multiset(ts)[x] == multiset(GetClasses(attr))[x]
  {
    WithoutHiddenCounts(GetClasses(attr));
    WithoutHidden(GetClasses(attr))
  }

  /** `removeHidden`: the new class attribute. */
  function RemoveHidden(attr: Option<string>): string
  {
    Join(ClassesMinusHidden(attr))
  }

  /** `addHidden`: the new class attribute. */
  function AddHidden(attr: Option<string>): string
  {
    Join(ClassesMinusHidden(attr) + [Hidden])
  }

  /** After `removeHidden` the element has no "hidden" class, and every
      other class it had is still there, as often as before. */
  lemma {:induction false} RemoveHiddenClasses(attr: Option<string>)
    ensures var after := GetClasses(Some(RemoveHidden(attr)));
      && Hidden !in after
      && (ClassesMinusHidden(attr) != [] ==> after == ClassesMinusHidden(attr))
      && (ClassesMinusHidden(attr) == [] ==> after == [""])
  {
    SplitJoin(ClassesMinusHidden(attr));
  }

  /** After `addHidden` the element has "hidden" exactly once, as its last
      class, after the other classes it had in their order. */
  lemma {:induction false} AddHiddenClasses(attr: Option<string>)
    ensures var after := GetClasses(Some(AddHidden(attr)));
      && after == ClassesMinusHidden(attr) + [Hidden]
      && after[|after| - 1] == Hidden
      && multiset(after)[Hidden] == 1
  {
    var f := ClassesMinusHidden(attr);
    var ts := f + [Hidden];
    assert Tokens(ts) by {
      assert forall k :: 0 <= k < |f| ==> ts[k] == f[k];
    }
    SplitJoin(ts);
    assert multiset(ts) == multiset(f) + multiset{Hidden};
    assert multiset(f)[Hidden] == 0;
  }

  /** Reading back the classes after `addHidden` and dropping "hidden"
      again gives the classes the first call kept. */
  lemma {:induction false} HiddenAgain(attr: Option<string>)
    ensures ClassesMinusHidden(Some(AddHidden(attr))) == ClassesMinusHidden(attr)
  {
    AddHiddenClasses(attr);
    var f := ClassesMinusHidden(attr);
    assert GetClasses(Some(AddHidden(attr))) == f + [Hidden];
    WithoutHiddenAppend(f, [Hidden]);
    WithoutHiddenKeeps(f);
    assert [Hidden][1..] == [];
    assert WithoutHidden([Hidden]) == [];
    assert f + [] == f;
  }

  lemma {:induction false} RemoveHiddenIdempotent(attr: Option<string>)
    ensures RemoveHidden(Some(RemoveHidden(attr))) == RemoveHidden(attr)
  {
    var f := ClassesMinusHidden(attr);
    SplitJoin(f);
    if f != [] {
      WithoutHiddenKeeps(f);
    }
  }

  lemma {:induction false} AddHiddenIdempotent(attr: Option<string>)
    ensures AddHidden(Some(AddHidden(attr))) == AddHidden(attr)
  {
    HiddenAgain(attr);
  }

  /** Hiding and then showing is the same as showing. */
  lemma {:induction false} RemoveAfterAdd(attr: Option<string>)
    ensures RemoveHidden(Some(AddHidden(attr))) == RemoveHidden(attr)
  {
    HiddenAgain(attr);
  }

  /** A missing attribute has one empty class, so hiding an element without
      classes gives " hidden". */
  lemma {:induction false} MissingAttribute()
    ensures GetClasses(None) == [""]
    ensures RemoveHidden(None) == ""
    ensures AddHidden(None) == " hidden"
  {
    assert ClassesMinusHidden(None) == [""];
    assert ClassesMinusHidden(None) + [Hidden] == ["", Hidden];
    assert Join(["", Hidden]) == "" + [Space] + Join([Hidden]);
  }
}
