/**
 The text form in which the registry reports its ids to the host: the ids
 joined with commas and wrapped in square brackets, `[id1,id2,...]`.
 ParseList reads that form back and inverts Render on listable ids
 (ParseRender).
 */
module Listing {

  import opened Wrappers

  /** The ids joined with ',' between neighbours. */
  function Join(ids: seq<string>): string
  {
    if |ids| == 0 then ""
    else if |ids| == 1 then ids[0]
    else ids[0] + "," + Join(ids[1..])
  }

  /** The listing sent across the host boundary: '[' + Join(ids) + ']'. */
  function Render(ids: seq<string>): string
  {
    "[" + Join(ids) + "]"
  }

  /** The pieces of `s` between commas; a text without a comma is one piece. */
  function Split(s: string): (r: seq<string>)
    ensures |r| >= 1
    ensures |r| == 1 <==> ',' !in s
  {
    if s == [] then [""]
    else
      var rest := Split(s[1..]);
      if s[0] == ',' then [""] + rest
      else [[s[0]] + rest[0]] + rest[1..]
  }

  /** Reads a listing back: None unless it is bracketed, the empty list for "[]". */
  function ParseList(s: string): (r: Option<seq<string>>)
    ensures r.Some? <==> |s| >= 2 && s[0] == '[' && s[|s| - 1] == ']'
    ensures s == "[]" ==> r == Some([])
  {
    if |s| >= 2 && s[0] == '[' && s[|s| - 1] == ']' then
      var inner := s[1..|s| - 1];
      if inner == "" then Some([]) else Some(Split(inner))
    else None
  }

  /** An id that can be told apart in a listing: not empty and free of commas. */
  predicate Listable(id: string)
  {
    id != "" && ',' !in id
  }

  /** Splitting a comma-free word followed by more text yields that word in front. */
  lemma {:induction false} SplitAfterWord(w: string, t: string)
    requires ',' !in w
    ensures Split(w + t) == [w + Split(t)[0]] + Split(t)[1..]
  {
    if w != [] {
      assert (w + t)[1..] == w[1..] + t;
      assert (w + t)[0] == w[0];
      SplitAfterWord(w[1..], t);
      assert [w[0]] + (w[1..] + Split(t)[0]) == w + Split(t)[0];
    } else {
      var r := Split(t);
      assert w + t == t && w + r[0] == r[0];
      assert r == [r[0]] + r[1..];
    }
  }

  /** Splitting the join of comma-free ids gives the ids back. */
  lemma {:induction false} SplitJoin(ids: seq<string>)
    requires |ids| >= 1
    requires forall i :: 0 <= i < |ids| ==> ',' !in ids[i]
    ensures Split(Join(ids)) == ids
  {
    if |ids| == 1 {
      SplitAfterWord(ids[0], "");
      assert ids[0] + "" == ids[0];
    } else {
      var tail := Join(ids[1..]);
      SplitJoin(ids[1..]);
      assert ("," + tail)[1..] == tail;
      assert Split("," + tail) == [""] + ids[1..];
      SplitAfterWord(ids[0], "," + tail);
      assert ids[0] + "," + tail == ids[0] + ("," + tail);
      assert ids[0] + "" == ids[0];
      assert ids == [ids[0]] + ids[1..];
    }
  }

  /** A listing of listable ids reads back as exactly those ids, in the same order. */
  lemma ParseRender(ids: seq<string>)
    requires forall i :: 0 <= i < |ids| ==> Listable(ids[i])
    ensures ParseList(Render(ids)) == Some(ids)
  {
    var r := Render(ids);
    if ids != [] {
      assert Join(ids) != "" by {
        assert |ids| == 1 || Join(ids) == ids[0] + "," + Join(ids[1..]);
      }
      SplitJoin(ids);
    }
  }

  /** Without the Listable restriction two different id lists can share one listing. */
  lemma RenderAmbiguous()
    ensures Render([]) == Render([""])
    ensures Render(["a,b"]) == Render(["a", "b"])
  {
  }
}
