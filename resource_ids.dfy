/** Resource-group extraction from an Azure Resource Manager resource ID
    (`extract_rg_from_id`). An ID has the shape
    `/subscriptions/<sub>/resourceGroups/<group>/providers/...`; the group is
    piece 4 of the ID split on `/`. When the split has fewer than five
    pieces the indexing raises, `extract_rg_from_id` catches it and answers `""`. */
module ResourceIds {
  import opened PyStr

  /** `resource_id.split("/")[4]`, or `""` when there is no piece 4. */
  function ExtractRg(resourceId: string): (rg: string)
    ensures '/' !in rg
    ensures |Split(resourceId, '/')| < 5 ==> rg == ""
  {
    var parts := Split(resourceId, '/');
    if |parts| >= 5 then
      SplitPiecesFree(resourceId, '/', 4);
      parts[4]
    else ""
  }

  /** An ID assembled from `/`-free pieces yields its fifth piece, or `""`
      when there are fewer than five pieces: extraction inverts the
      assembly of an ID. */
  lemma ExtractRgOfJoin(parts: seq<string>)
    requires |parts| >= 1
    requires forall k :: 0 <= k < |parts| ==> '/' !in parts[k]
    ensures ExtractRg(Join(parts, '/')) == if |parts| >= 5 then parts[4] else ""
  {
    SplitJoin(parts, '/');
  }

  /** Splitting `<piece>/.../<piece>/<rest>` gives the `/`-free pieces and
      then the pieces of the rest. */
  lemma {:induction false} SplitAfterPieces(pieces: seq<string>, rest: string)
    requires |pieces| >= 1
    requires forall k :: 0 <= k < |pieces| ==> '/' !in pieces[k]
    ensures Split(Join(pieces, '/') + "/" + rest, '/') == pieces + Split(rest, '/')
    decreases |pieces|
  {
    if |pieces| == 1 {
      assert Join(pieces, '/') + "/" + rest == pieces[0] + ['/'] + rest;
      SplitAtSep(pieces[0], '/', rest);
      assert [pieces[0]] == pieces;
    } else {
      var inner := Join(pieces[1..], '/') + "/" + rest;
      SplitAfterPieces(pieces[1..], rest);
      assert Join(pieces, '/') + "/" + rest == pieces[0] + ['/'] + inner;
      SplitAtSep(pieces[0], '/', inner);
      var tail := Split(rest, '/');
      calc {
        Split(Join(pieces, '/') + "/" + rest, '/');
        [pieces[0]] + Split(inner, '/');
        [pieces[0]] + (pieces[1..] + tail);
        ([pieces[0]] + pieces[1..]) + tail;
        { assert [pieces[0]] + pieces[1..] == pieces; }
        pieces + tail;
      }
    }
  }

  /** A well-formed ARM ID `<p0>/<p1>/<p2>/<p3>/<group>/<rest>` yields
      `<group>`, whatever the rest holds. */
  lemma ExtractRgOfArmId(p0: string, p1: string, p2: string, p3: string,
                         group: string, rest: string)
    requires '/' !in p0 && '/' !in p1 && '/' !in p2 && '/' !in p3 && '/' !in group
    ensures ExtractRg(p0 + "/" + p1 + "/" + p2 + "/" + p3 + "/" + group + "/" + rest) == group
  {
    var pieces := [p0, p1, p2, p3, group];
    assert Join(pieces[4..], '/') == group;
    assert Join(pieces[3..], '/') == p3 + "/" + group;
    assert Join(pieces[2..], '/') == p2 + "/" + p3 + "/" + group;
    assert Join(pieces[1..], '/') == p1 + "/" + p2 + "/" + p3 + "/" + group;
    assert Join(pieces, '/') == p0 + "/" + p1 + "/" + p2 + "/" + p3 + "/" + group;
    SplitAfterPieces(pieces, rest);
  }

  /** A typical ARM VM ID names its resource group in the fifth piece. */
  lemma ExtractRgExample()
    ensures ExtractRg("/" + "subscriptions" + "/" + "S" + "/" + "resourceGroups" + "/" + "my-rg"
                      + "/" + "providers/Microsoft.Compute/virtualMachines/vm1") == "my-rg"
  {
    ExtractRgOfArmId("", "subscriptions", "S", "resourceGroups", "my-rg",
                     "providers/Microsoft.Compute/virtualMachines/vm1");
    assert "" + "/" == "/";
  }

  /** An ID of four `/`-free pieces, so with exactly three `/`, has no resource group. */
  lemma ExtractRgShortId(p0: string, p1: string, p2: string, p3: string)
    requires '/' !in p0 && '/' !in p1 && '/' !in p2 && '/' !in p3
    ensures ExtractRg(p0 + "/" + p1 + "/" + p2 + "/" + p3) == ""
  {
    var pieces := [p0, p1, p2, p3];
    assert Join(pieces[3..], '/') == p3;
    assert Join(pieces[2..], '/') == p2 + "/" + p3;
    assert Join(pieces[1..], '/') == p1 + "/" + p2 + "/" + p3;
    assert Join(pieces, '/') == p0 + "/" + p1 + "/" + p2 + "/" + p3;
    ExtractRgOfJoin(pieces);
  }
}
