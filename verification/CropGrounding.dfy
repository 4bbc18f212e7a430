/** From an uploaded crops sidecar to the crops a provider is sent (src/cropGrounding.ts
    164-265): measure, pair by region, then take pairs first-fit under both caps. */
module CropGrounding {
  import opened Pricing
  import opened ImageHeaders

  datatype Kind = Build | Reference

  datatype Region = Region(x: real, y: real, width: real, height: real)

  /** One entry as JSON has it. A kind, region, media type or base64 text that is absent or of
      the wrong shape is None; `bytes` is what the text decodes to. */
  datatype Entry =
    | NotAnObject
    | Entry(kind: Option<Kind>, region: Option<Region>, imageType: bool, base64Chars: Option<nat>, bytes: seq<Byte>)

  datatype Sidecar = Unreadable | Crops(entries: seq<Entry>)

  /** A crop that passed: which entry it was, and its measured size. */
  datatype Crop = Crop(entry: nat, kind: Kind, region: Region, width: nat, height: nat)

  const MAX_CROP_BASE64_CHARS: nat := 4 * 1024 * 1024

  predicate NonNegative(r: Region) { r.x >= 0.0 && r.y >= 0.0 && r.width >= 0.0 && r.height >= 0.0 }

  /** Is an entry usable, and as what? */
  function Measure(e: Entry, i: nat): Option<Crop>
  {
    if e.NotAnObject? || e.kind.None? || e.region.None? || !NonNegative(e.region.value) || !e.imageType then None
    else if e.base64Chars.None? || e.base64Chars.value == 0 || e.base64Chars.value > MAX_CROP_BASE64_CHARS then None
    else
      match Dimensions(e.bytes)
      case None => None
      case Some(size) =>
        if size.width == 0 || size.height == 0 then None
        else Some(Crop(i, e.kind.value, e.region.value, size.width, size.height))
  }

  /** The first `n` entries, measured. */
  function Measured(entries: seq<Entry>, n: nat): (crops: seq<Crop>)
    requires n <= |entries|
    ensures forall c :: c in crops ==> c.entry < n && Measure(entries[c.entry], c.entry) == Some(c)
    ensures forall i, j :: 0 <= i < j < |crops| ==> crops[i].entry < crops[j].entry
  {
    if n == 0 then []
    else
      var m := Measure(entries[n - 1], n - 1);
      if m.None? then Measured(entries, n - 1) else Measured(entries, n - 1) + [m.value]
  }

  /** What an entry must have to be used: a kind, a rectangle of non-negative numbers, an image
      type, at most 4 MiB of base64, and a picture whose size can be read and is not empty. */
  predicate Readable(e: Entry)
  {
    match e
    case NotAnObject => false
    case Entry(kind, region, imageType, base64Chars, bytes) =>
      && kind != None && region != None && imageType
      && region.value.x >= 0.0 && region.value.y >= 0.0 && region.value.width >= 0.0 && region.value.height >= 0.0
      && base64Chars != None && 0 < base64Chars.value <= 4_194_304
      && Dimensions(bytes) != None && Dimensions(bytes).value.width > 0 && Dimensions(bytes).value.height > 0
  }

  predicate TakenFrom(c: Crop, e: Entry)
  {
    && e.Entry? && Dimensions(e.bytes).Some?
    && e.kind == Some(c.kind) && e.region == Some(c.region)
    && c.width == Dimensions(e.bytes).value.width && c.height == Dimensions(e.bytes).value.height
  }

  lemma MeasureReads(e: Entry, i: nat)
    ensures Measure(e, i).Some? <==> Readable(e)
    ensures Measure(e, i).Some? ==> Measure(e, i).value.entry == i && TakenFrom(Measure(e, i).value, e)
  {}

  lemma {:induction false} MeasuredAreReadable(entries: seq<Entry>, n: nat)
    requires n <= |entries|
    ensures forall i :: 0 <= i < n ==> (Readable(entries[i]) <==> exists c :: c in Measured(entries, n) && c.entry == i)
    ensures forall c :: c in Measured(entries, n) ==> c.entry < |entries| && TakenFrom(c, entries[c.entry])
  {
    if n > 0 {
      MeasuredAreReadable(entries, n - 1);
      MeasureReads(entries[n - 1], n - 1);
      forall c | c in Measured(entries, n) ensures c.entry < |entries| && TakenFrom(c, entries[c.entry]) {
        MeasureReads(entries[c.entry], c.entry);
      }
      forall i | 0 <= i < n ensures Readable(entries[i]) <==> exists c :: c in Measured(entries, n) && c.entry == i {
        OneMoreMeasured(entries, n, i);
      }
    }
  }

  lemma {:induction false} OneMoreMeasured(entries: seq<Entry>, n: nat, i: nat)
    requires i < n <= |entries|
    requires i < n - 1 ==> (Readable(entries[i]) <==> exists c :: c in Measured(entries, n - 1) && c.entry == i)
    ensures Readable(entries[i]) <==> exists c :: c in Measured(entries, n) && c.entry == i
  {
    var before, m := Measured(entries, n - 1), Measure(entries[n - 1], n - 1);
    MeasureReads(entries[n - 1], n - 1);
    assert forall c :: c in Measured(entries, n) <==> c in before || (m.Some? && c == m.value);
    if i == n - 1 && m.Some? { assert m.value in Measured(entries, n); }
  }

  method MeasureAll(entries: seq<Entry>) returns (crops: seq<Crop>)
    ensures crops == Measured(entries, |entries|)
    ensures forall i :: 0 <= i < |entries| ==> (Readable(entries[i]) <==> exists c :: c in crops && c.entry == i)
    ensures forall c :: c in crops ==> c.entry < |entries| && TakenFrom(c, entries[c.entry])
  {
    crops := [];
    for i := 0 to |entries|
      invariant crops == Measured(entries, i)
    {
      var e := entries[i];
      if e.NotAnObject? || e.kind.None? || e.region.None? || !NonNegative(e.region.value) || !e.imageType { continue; }
      if e.base64Chars.None? || e.base64Chars.value == 0 || e.base64Chars.value > MAX_CROP_BASE64_CHARS { continue; }
      var size := ImageDimensions(e.bytes);
      if size.None? || size.value.width == 0 || size.value.height == 0 { continue; }
      crops := crops + [Crop(i, e.kind.value, e.region.value, size.value.width, size.value.height)];
    }
    MeasuredAreReadable(entries, |entries|);
  }

  // ---- Pairs -------------------------------------------------------------------

  datatype Pair = Pair(build: Crop, reference: Crop)

  datatype Pairing = Pairing(pairs: seq<Pair>, waiting: map<Region, Crop>)

  /** A crop meets the one of the other kind waiting for its region, or waits there itself. */
  function Meet(p: Pairing, c: Crop): Pairing
  {
    if c.region in p.waiting && p.waiting[c.region].kind != c.kind then
      var w := p.waiting[c.region];
      Pairing(p.pairs + [if w.kind == Build then Pair(w, c) else Pair(c, w)], p.waiting - {c.region})
    else Pairing(p.pairs, p.waiting[c.region := c])
  }

  function PairUp(crops: seq<Crop>): Pairing
  {
    if crops == [] then Pairing([], map[]) else Meet(PairUp(crops[..|crops| - 1]), crops[|crops| - 1])
  }

  method PairAll(measured: seq<Crop>) returns (pairs: seq<Pair>, orphans: nat)
    ensures pairs == PairUp(measured).pairs && orphans == |PairUp(measured).waiting|
    ensures Increasing(measured) ==> PairedRight(measured, pairs) && InOrder(pairs, measured)
  {
    pairs := [];
    var waiting: map<Region, Crop> := map[];
    for i := 0 to |measured|
      invariant Pairing(pairs, waiting) == PairUp(measured[..i])
    {
      assert measured[..i + 1][..i] == measured[..i];
      var c := measured[i];
      if c.region in waiting && waiting[c.region].kind != c.kind {
        var w := waiting[c.region];
        pairs := pairs + [if w.kind == Build then Pair(w, c) else Pair(c, w)];
        waiting := waiting - {c.region};
      } else {
        waiting := waiting[c.region := c];
      }
    }
    assert measured[..|measured|] == measured;
    orphans := |waiting|;
    if Increasing(measured) {
      PairingIsRight(measured);
      PairsAreInOrder(measured);
    }
  }

  /** A build crop and a reference crop of one region, both measured. */
  predicate Sound(p: Pair, measured: seq<Crop>)
  {
    && p.build in measured && p.reference in measured && p.build.kind == Build && p.reference.kind == Reference
    && p.build.region == p.reference.region
  }

  lemma {:induction false} PairsAreSound(measured: seq<Crop>)
    ensures forall p :: p in PairUp(measured).pairs ==> Sound(p, measured)
    ensures forall r :: r in PairUp(measured).waiting ==>
              PairUp(measured).waiting[r] in measured && PairUp(measured).waiting[r].region == r
  {
    if measured != [] {
      PairsAreSound(measured[..|measured| - 1]);
    }
  }

  /** Crops used so far. */
  function UsedIn(pairs: seq<Pair>): set<nat>
  {
    (set p | p in pairs :: p.build.entry) + (set p | p in pairs :: p.reference.entry)
  }

  predicate Increasing(crops: seq<Crop>)
  {
    forall i, j :: 0 <= i < j < |crops| ==> crops[i].entry < crops[j].entry
  }

  predicate NoneShared(pairs: seq<Pair>)
  {
    && (forall i :: 0 <= i < |pairs| ==> pairs[i].build.entry != pairs[i].reference.entry)
    && (forall i, j :: 0 <= i < j < |pairs| ==>
          {pairs[i].build.entry, pairs[i].reference.entry} !! {pairs[j].build.entry, pairs[j].reference.entry})
  }

  /** No crop is in two pairs, and none waits that is in a pair. */
  ghost predicate OnceEach(p: Pairing, measured: seq<Crop>)
  {
    match p
    case Pairing(pairs, waiting) =>
      && NoneShared(pairs)
      && (forall r :: r in waiting ==> waiting[r].entry !in UsedIn(pairs))
      && (forall r, s :: r in waiting && s in waiting && r != s ==> waiting[r].entry != waiting[s].entry)
      && (forall e :: e in UsedIn(pairs) ==> exists c :: c in measured && c.entry == e)
      && (forall r :: r in waiting ==> waiting[r] in measured && waiting[r].region == r)
  }

  lemma MeetOnce(p: Pairing, measured: seq<Crop>, c: Crop)
    requires OnceEach(p, measured) && forall d :: d in measured ==> d.entry != c.entry
    ensures OnceEach(Meet(p, c), measured + [c])
  {
    MoreMeasured(p, measured, c);
    assert c in measured + [c] && c.entry !in UsedIn(p.pairs);
    if c.region in p.waiting && p.waiting[c.region].kind != c.kind {
      PairOnce(p, measured, c);
    } else {
      WaitOnce(p, measured, c);
    }
  }

  lemma WaitOnce(p: Pairing, measured: seq<Crop>, c: Crop)
    requires OnceEach(p, measured) && (forall d :: d in measured ==> d.entry != c.entry) && c.entry !in UsedIn(p.pairs)
    requires forall e :: e in UsedIn(p.pairs) ==> exists d :: d in measured + [c] && d.entry == e
    ensures OnceEach(Pairing(p.pairs, p.waiting[c.region := c]), measured + [c])
  {}

  lemma PairOnce(p: Pairing, measured: seq<Crop>, c: Crop)
    requires OnceEach(p, measured) && (forall d :: d in measured ==> d.entry != c.entry) && c.entry !in UsedIn(p.pairs)
    requires forall e :: e in UsedIn(p.pairs) ==> exists d :: d in measured + [c] && d.entry == e
    requires c.region in p.waiting && p.waiting[c.region].kind != c.kind
    ensures OnceEach(Meet(p, c), measured + [c])
  {
    var w := p.waiting[c.region];
    var q := Meet(p, c);
    var pair := if w.kind == Build then Pair(w, c) else Pair(c, w);
    UsedOneMore(p.pairs, pair);
    assert w in measured + [c] && c in measured + [c];
    forall i | 0 <= i < |p.pairs| ensures {p.pairs[i].build.entry, p.pairs[i].reference.entry} !! {w.entry, c.entry} {
      assert p.pairs[i] in p.pairs;
      assert p.pairs[i].build.entry in UsedIn(p.pairs) && p.pairs[i].reference.entry in UsedIn(p.pairs);
    }
    assert NoneShared(q.pairs);
  }

  lemma MoreMeasured(p: Pairing, measured: seq<Crop>, c: Crop)
    requires OnceEach(p, measured)
    ensures forall e :: e in UsedIn(p.pairs) ==> exists d :: d in measured + [c] && d.entry == e
  {}

  lemma {:induction false} EachCropOnce(measured: seq<Crop>)
    requires Increasing(measured)
    ensures OnceEach(PairUp(measured), measured)
  {
    if measured != [] {
      var before := measured[..|measured| - 1];
      var c := measured[|measured| - 1];
      EachCropOnce(before);
      MeetOnce(PairUp(before), before, c);
      assert before + [c] == measured;
    }
  }

  lemma UsedOneMore(pairs: seq<Pair>, p: Pair)
    ensures UsedIn(pairs + [p]) == UsedIn(pairs) + {p.build.entry, p.reference.entry}
  {}

  /** Pairing one region's crops does not depend on the others'. */
  function OfRegion(crops: seq<Crop>, r: Region): seq<Crop>
  {
    if crops == [] then []
    else
      var last := crops[|crops| - 1];
      OfRegion(crops[..|crops| - 1], r) + if last.region == r then [last] else []
  }

  function PairsOf(pairs: seq<Pair>, r: Region): seq<Pair>
  {
    if pairs == [] then []
    else
      var last := pairs[|pairs| - 1];
      PairsOf(pairs[..|pairs| - 1], r) + if last.build.region == r then [last] else []
  }

  lemma {:induction false} RegionsAreIndependent(crops: seq<Crop>, r: Region)
    ensures PairsOf(PairUp(crops).pairs, r) == PairUp(OfRegion(crops, r)).pairs
    ensures r in PairUp(crops).waiting <==> r in PairUp(OfRegion(crops, r)).waiting
    ensures r in PairUp(crops).waiting ==> PairUp(crops).waiting[r] == PairUp(OfRegion(crops, r)).waiting[r]
  {
    if crops != [] {
      var before := crops[..|crops| - 1];
      var c := crops[|crops| - 1];
      RegionsAreIndependent(before, r);
      PairsAreSound(before);
      var p, own := PairUp(before), OfRegion(before, r);
      var q := PairUp(crops);
      if q.pairs != p.pairs {
        assert q.pairs[..|q.pairs| - 1] == p.pairs;
      }
      if c.region == r {
        assert (own + [c])[..|own|] == own;
      } else {
        assert OfRegion(crops, r) == own;
      }
    }
  }

  // ---- Which crops are paired -----------------------------------------------------

  predicate Joined(pairs: seq<Pair>, a: Crop, b: Crop)
  {
    Pair(a, b) in pairs || Pair(b, a) in pairs
  }

  /** In a pair with no crop before it. */
  predicate Free(crops: seq<Crop>, pairs: seq<Pair>, i: int)
    requires 0 <= i < |crops|
  {
    forall h :: 0 <= h < i ==> !Joined(pairs, crops[h], crops[i])
  }

  /** Two crops of one region with none of it between them. */
  predicate Successive(crops: seq<Crop>, i: int, j: int)
  {
    && 0 <= i < j < |crops| && crops[j].region == crops[i].region
    && forall k :: i < k < j ==> crops[k].region != crops[i].region
  }

  predicate LastOf(crops: seq<Crop>, r: Region, l: int)
  {
    && 0 <= l < |crops| && crops[l].region == r
    && forall k :: l < k < |crops| ==> crops[k].region != r
  }

  predicate RightlyJoined(crops: seq<Crop>, pairs: seq<Pair>, i: int, j: int)
    requires 0 <= i < j < |crops|
  {
    Joined(pairs, crops[i], crops[j])
    <==> Successive(crops, i, j) && crops[i].kind != crops[j].kind && Free(crops, pairs, i)
  }

  /** Two crops are a pair exactly when they are successive crops of one region, differ in kind,
      and the earlier is in no pair with one before it. */
  ghost predicate PairedRight(crops: seq<Crop>, pairs: seq<Pair>)
  {
    forall i, j :: 0 <= i < j < |crops| ==> RightlyJoined(crops, pairs, i, j)
  }

  ghost predicate WaitsAt(crops: seq<Crop>, p: Pairing, r: Region, l: int)
  {
    LastOf(crops, r, l) && r in p.waiting && p.waiting[r] == crops[l] && Free(crops, p.pairs, l)
  }

  /** What waits for a region is its last crop, unless that one closed a pair. */
  ghost predicate WaitingRight(crops: seq<Crop>, p: Pairing)
  {
    && (forall r :: r in p.waiting ==> exists l :: WaitsAt(crops, p, r, l))
    && (forall r, l :: LastOf(crops, r, l) && Free(crops, p.pairs, l) ==> r in p.waiting)
  }

  /** Pairs of crops of the list, and no crop twice in the list. */
  ghost predicate Proper(crops: seq<Crop>, p: Pairing)
  {
    && (forall q :: q in p.pairs ==> q.build in crops && q.reference in crops)
    && (forall r :: r in p.waiting ==> p.waiting[r] in crops)
    && (forall a, b :: 0 <= a < b < |crops| ==> crops[a] != crops[b])
  }

  lemma JoinedBefore(crops: seq<Crop>, p: Pairing, c: Crop, a: Crop, b: Crop)
    requires Proper(crops, p) && c !in crops && a in crops && b in crops
    ensures Joined(Meet(p, c).pairs, a, b) <==> Joined(p.pairs, a, b)
  {}

  lemma FreeBefore(crops: seq<Crop>, p: Pairing, c: Crop, i: int)
    requires Proper(crops, p) && c !in crops && 0 <= i < |crops|
    ensures Free(crops + [c], Meet(p, c).pairs, i) <==> Free(crops, p.pairs, i)
  {
    var all := crops + [c];
    forall h | 0 <= h < i
      ensures all[h] == crops[h] && (Joined(Meet(p, c).pairs, all[h], all[i]) <==> Joined(p.pairs, crops[h], crops[i])) {
      JoinedBefore(crops, p, c, crops[h], crops[i]);
    }
  }

  lemma SuccessiveBefore(crops: seq<Crop>, c: Crop, i: int, j: int)
    requires 0 <= i < j < |crops|
    ensures Successive(crops + [c], i, j) <==> Successive(crops, i, j)
  {
    var all := crops + [c];
    forall k | i < k < j ensures all[k] == crops[k] {}
    if Successive(all, i, j) {
      forall k | i < k < j ensures crops[k].region != crops[i].region { assert all[k].region != all[i].region; }
    }
  }

  lemma SuccessiveToLast(crops: seq<Crop>, c: Crop, i: int)
    requires 0 <= i < |crops|
    ensures Successive(crops + [c], i, |crops|) <==> LastOf(crops, c.region, i)
  {
    var all := crops + [c];
    if Successive(all, i, |crops|) {
      forall k | i < k < |crops| ensures crops[k].region != c.region { assert all[k].region != all[i].region; }
    }
  }

  lemma LastOfAppended(crops: seq<Crop>, c: Crop, r: Region, l: int)
    ensures LastOf(crops + [c], r, l) <==> if r == c.region then l == |crops| else LastOf(crops, r, l)
  {
    var all := crops + [c];
    if LastOf(all, r, l) && r != c.region {
      forall k | l < k < |crops| ensures crops[k].region != r { assert all[k].region != r; }
    }
    assert all[|crops|] == c;
  }

  /** The new crop is joined with the region's last one exactly when that is free and of the
      other kind. */
  lemma JoinedToLast(crops: seq<Crop>, p: Pairing, c: Crop, i: int)
    requires Proper(crops, p) && WaitingRight(crops, p) && c !in crops && 0 <= i < |crops|
    ensures Joined(Meet(p, c).pairs, crops[i], c)
       <==> LastOf(crops, c.region, i) && crops[i].kind != c.kind && Free(crops, p.pairs, i)
  {
    if c.region in p.waiting {
      var l :| WaitsAt(crops, p, c.region, l);
      if LastOf(crops, c.region, i) { assert i == l; }
      assert crops[i] == crops[l] ==> i == l;
    }
  }

  lemma PairsStayRight(crops: seq<Crop>, p: Pairing, c: Crop)
    requires PairedRight(crops, p.pairs) && WaitingRight(crops, p) && Proper(crops, p) && c !in crops
    ensures PairedRight(crops + [c], Meet(p, c).pairs)
  {
    forall i, j | 0 <= i < j < |crops + [c]| ensures RightlyJoined(crops + [c], Meet(p, c).pairs, i, j) {
      FreeBefore(crops, p, c, i);
      if j < |crops| {
        assert RightlyJoined(crops, p.pairs, i, j);
        JoinedBefore(crops, p, c, crops[i], crops[j]);
        SuccessiveBefore(crops, c, i, j);
      } else {
        JoinedToLast(crops, p, c, i);
        SuccessiveToLast(crops, c, i);
      }
    }
  }

  /** The new crop waits exactly when it is free. */
  lemma NewIsFree(crops: seq<Crop>, p: Pairing, c: Crop)
    requires Proper(crops, p) && WaitingRight(crops, p) && c !in crops
    ensures Free(crops + [c], Meet(p, c).pairs, |crops|) <==> c.region in Meet(p, c).waiting
  {
    var all, q := crops + [c], Meet(p, c);
    forall h | 0 <= h < |crops|
      ensures Joined(q.pairs, all[h], c)
         <==> LastOf(crops, c.region, h) && crops[h].kind != c.kind && Free(crops, p.pairs, h) {
      JoinedToLast(crops, p, c, h);
    }
    if c.region in p.waiting {
      var l :| WaitsAt(crops, p, c.region, l);
      assert all[l] == crops[l];
    }
  }

  lemma WaitingStaysRight(crops: seq<Crop>, p: Pairing, c: Crop)
    requires Proper(crops, p) && WaitingRight(crops, p) && c !in crops
    ensures WaitingRight(crops + [c], Meet(p, c))
  {
    var all, q, n := crops + [c], Meet(p, c), |crops|;
    NewIsFree(crops, p, c);
    LastOfAppended(crops, c, c.region, n);
    forall r | r in q.waiting ensures exists l :: WaitsAt(all, q, r, l) {
      if r == c.region {
        assert WaitsAt(all, q, r, n);
      } else {
        var l :| WaitsAt(crops, p, r, l);
        LastOfAppended(crops, c, r, l);
        FreeBefore(crops, p, c, l);
        assert WaitsAt(all, q, r, l);
      }
    }
    forall r, l | LastOf(all, r, l) && Free(all, q.pairs, l) ensures r in q.waiting {
      LastOfAppended(crops, c, r, l);
      if r != c.region { FreeBefore(crops, p, c, l); }
    }
  }

  lemma {:induction false} PairingIsRight(crops: seq<Crop>)
    requires Increasing(crops)
    ensures PairedRight(crops, PairUp(crops).pairs) && WaitingRight(crops, PairUp(crops))
  {
    if crops != [] {
      var before, c := crops[..|crops| - 1], crops[|crops| - 1];
      PairingIsRight(before);
      PairsAreSound(before);
      assert before + [c] == crops;
      PairsStayRight(before, PairUp(before), c);
      WaitingStaysRight(before, PairUp(before), c);
    }
  }

  /** After its last pair a region has crops of one kind only: of two crops neither of which,
      nor any of their region between them, is in a pair, the kinds are the same. */
  lemma {:induction false} LeftoversAreOfOneKind(crops: seq<Crop>, i: nat, j: nat)
    requires Increasing(crops) && i <= j < |crops| && crops[i].region == crops[j].region
    requires forall k, h :: i <= k < j && crops[k].region == crops[i].region && 0 <= h < |crops| ==>
               !Joined(PairUp(crops).pairs, crops[h], crops[k])
    ensures crops[i].kind == crops[j].kind
    decreases j - i
  {
    if i < j {
      var k := Previous(crops, i, j);
      LeftoversAreOfOneKind(crops, i, k);
      PairingIsRight(crops);
      assert RightlyJoined(crops, PairUp(crops).pairs, k, j);
      assert Joined(PairUp(crops).pairs, crops[k], crops[j]) <==> Joined(PairUp(crops).pairs, crops[j], crops[k]);
    }
  }

  /** The crop of a region before another of it. */
  lemma Previous(crops: seq<Crop>, i: nat, j: nat) returns (k: nat)
    requires i < j < |crops| && crops[i].region == crops[j].region
    ensures i <= k && Successive(crops, k, j)
  {
    k := i;
    for n := i + 1 to j
      invariant i <= k < n && crops[k].region == crops[i].region
      invariant forall x :: k < x < n ==> crops[x].region != crops[i].region
    {
      if crops[n].region == crops[i].region { k := n; }
    }
  }

  // ---- The caps ----------------------------------------------------------------

  function Area(c: Crop): nat { c.width * c.height }

  /** What each pair costs, in pixels. */
  function Costs(pairs: seq<Pair>): (costs: seq<nat>)
    ensures |costs| == |pairs| && forall i :: 0 <= i < |pairs| ==> costs[i] == Area(pairs[i].build) + Area(pairs[i].reference)
  {
    seq(|pairs|, i requires 0 <= i < |pairs| => Area(pairs[i].build) + Area(pairs[i].reference))
  }

  /** How many of the first `n` positions are chosen, and what they cost together. */
  function Number(chosen: set<nat>, n: nat): nat
  {
    if n == 0 then 0 else Number(chosen, n - 1) + if n - 1 in chosen then 1 else 0
  }

  function Spent(costs: seq<nat>, chosen: set<nat>, n: nat): nat
    requires n <= |costs|
  {
    if n == 0 then 0 else Spent(costs, chosen, n - 1) + if n - 1 in chosen then costs[n - 1] else 0
  }

  /** Could one more pair of this cost still be sent? */
  predicate Room(number: nat, spent: nat, cost: nat)
  {
    2 * number + 2 <= MAX_CROPS && spent + cost <= MAX_CROP_PIXELS
  }

  /** A position is chosen exactly when its pair fits beside the chosen ones before it. */
  predicate RightlyDecided(costs: seq<nat>, chosen: set<nat>, i: nat)
    requires i < |costs|
  {
    i in chosen <==> Room(Number(chosen, i), Spent(costs, chosen, i), costs[i])
  }

  predicate FirstFit(costs: seq<nat>, chosen: set<nat>, n: nat)
    requires n <= |costs|
  {
    && (forall i :: i in chosen ==> i < n)
    && (forall i :: 0 <= i < n ==> RightlyDecided(costs, chosen, i))
  }

  /** There is only one such choice. */
  lemma FirstFitIsUnique(costs: seq<nat>, a: set<nat>, b: set<nat>, n: nat)
    requires n <= |costs| && FirstFit(costs, a, n) && FirstFit(costs, b, n)
    ensures a == b
  {
    forall i | 0 <= i < n ensures i in a <==> i in b {
      SameSoFar(costs, a, b, n, i);
    }
  }

  lemma {:induction false} SameSoFar(costs: seq<nat>, a: set<nat>, b: set<nat>, n: nat, i: nat)
    requires i < n <= |costs| && FirstFit(costs, a, n) && FirstFit(costs, b, n)
    ensures Number(a, i) == Number(b, i) && Spent(costs, a, i) == Spent(costs, b, i)
    ensures i in a <==> i in b
  {
    if i > 0 { SameSoFar(costs, a, b, n, i - 1); }
    assert RightlyDecided(costs, a, i) && RightlyDecided(costs, b, i);
  }

  lemma {:induction false} LaterDoNotMatter(costs: seq<nat>, chosen: set<nat>, i: nat, n: nat)
    requires i <= n < |costs|
    ensures Number(chosen + {n}, i) == Number(chosen, i) && Spent(costs, chosen + {n}, i) == Spent(costs, chosen, i)
  {
    if i > 0 { LaterDoNotMatter(costs, chosen, i - 1, n); }
  }

  lemma FitsOneMore(costs: seq<nat>, chosen: set<nat>, n: nat)
    requires n < |costs| && FirstFit(costs, chosen, n)
    ensures var next := if Room(Number(chosen, n), Spent(costs, chosen, n), costs[n]) then chosen + {n} else chosen;
            FirstFit(costs, next, n + 1)
  {
    assert n !in chosen;
    var next := if Room(Number(chosen, n), Spent(costs, chosen, n), costs[n]) then chosen + {n} else chosen;
    forall i | 0 <= i <= n ensures RightlyDecided(costs, next, i) {
      LaterDoNotMatter(costs, chosen, i, n);
      if i < n { assert RightlyDecided(costs, chosen, i); }
    }
  }

  /** The crops of the pairs at the chosen positions, in order. */
  function Sent(pairs: seq<Pair>, chosen: set<nat>, n: nat): seq<Crop>
    requires n <= |pairs|
  {
    if n == 0 then [] else Sent(pairs, chosen, n - 1) + if n - 1 in chosen then [pairs[n - 1].build, pairs[n - 1].reference] else []
  }

  lemma {:induction false} SentSoFar(pairs: seq<Pair>, chosen: set<nat>, i: nat, n: nat)
    requires i <= n < |pairs|
    ensures Sent(pairs, chosen + {n}, i) == Sent(pairs, chosen, i)
  {
    if i > 0 { SentSoFar(pairs, chosen, i - 1, n); }
  }

  /** Takes pairs in order while they fit. */
  method TakePairs(pairs: seq<Pair>) returns (crops: seq<Crop>, pixels: nat, ghost chosen: set<nat>)
    ensures FirstFit(Costs(pairs), chosen, |pairs|)
    ensures crops == Sent(pairs, chosen, |pairs|) && pixels == Spent(Costs(pairs), chosen, |pairs|)
    ensures |crops| <= MAX_CROPS && pixels <= MAX_CROP_PIXELS
  {
    crops, pixels, chosen := [], 0, {};
    ghost var costs := Costs(pairs);
    for n := 0 to |pairs|
      invariant FirstFit(costs, chosen, n)
      invariant crops == Sent(pairs, chosen, n) && |crops| == 2 * Number(chosen, n) && pixels == Spent(costs, chosen, n)
      invariant |crops| <= MAX_CROPS && pixels <= MAX_CROP_PIXELS
    {
      var p := pairs[n];
      var cost := Area(p.build) + Area(p.reference);
      FitsOneMore(costs, chosen, n);
      LaterDoNotMatter(costs, chosen, n, n);
      SentSoFar(pairs, chosen, n, n);
      if |crops| + 2 > MAX_CROPS { continue; }
      if pixels + cost > MAX_CROP_PIXELS { continue; }
      crops := crops + [p.build, p.reference];
      pixels := pixels + cost;
      chosen := chosen + {n};
    }
  }

  // ---- The whole ---------------------------------------------------------------

  function SumPixels(crops: seq<Crop>): nat
  {
    if crops == [] then 0 else SumPixels(crops[..|crops| - 1]) + Area(crops[|crops| - 1])
  }

  lemma SumOfTwo(crops: seq<Crop>, a: Crop, b: Crop)
    ensures SumPixels(crops + [a, b]) == SumPixels(crops) + Area(a) + Area(b)
  {
    assert (crops + [a, b])[..|crops| + 1] == crops + [a];
    assert (crops + [a])[..|crops|] == crops;
  }

  lemma {:induction false} SentAddsUp(pairs: seq<Pair>, chosen: set<nat>, n: nat)
    requires n <= |pairs|
    ensures SumPixels(Sent(pairs, chosen, n)) == Spent(Costs(pairs), chosen, n)
  {
    if n > 0 {
      SentAddsUp(pairs, chosen, n - 1);
      SumOfTwo(Sent(pairs, chosen, n - 1), pairs[n - 1].build, pairs[n - 1].reference);
      assert Sent(pairs, chosen, n - 1) + [] == Sent(pairs, chosen, n - 1);
    }
  }

  /** Crops of a list, as consecutive build and reference crops of one region. */
  predicate Grounded(crops: seq<Crop>, measured: seq<Crop>)
  {
    && |crops| % 2 == 0
    && (forall i :: 0 <= i < |crops| && i % 2 == 0 ==>
          && crops[i].kind == Build && crops[i + 1].kind == Reference && crops[i].region == crops[i + 1].region)
    && (forall c :: c in crops ==> c in measured)
  }

  lemma GroundedOneMore(crops: seq<Crop>, p: Pair, measured: seq<Crop>)
    requires Grounded(crops, measured) && Sound(p, measured)
    ensures Grounded(crops + [p.build, p.reference], measured)
  {}

  lemma {:induction false} SentIsGrounded(pairs: seq<Pair>, chosen: set<nat>, n: nat, measured: seq<Crop>)
    requires n <= |pairs| && forall p :: p in pairs ==> Sound(p, measured)
    ensures Grounded(Sent(pairs, chosen, n), measured)
  {
    if n > 0 {
      SentIsGrounded(pairs, chosen, n - 1, measured);
      GroundedOneMore(Sent(pairs, chosen, n - 1), pairs[n - 1], measured);
      assert Sent(pairs, chosen, n - 1) + [] == Sent(pairs, chosen, n - 1);
    }
  }

  function MeasuredOf(sidecar: Sidecar): seq<Crop>
  {
    match sidecar
    case Unreadable => []
    case Crops(entries) => Measured(entries, |entries|)
  }

  /** When a pair is complete: at the later of its two crops. */
  function Completed(build: Crop, reference: Crop): nat
  {
    if build.entry >= reference.entry then build.entry else reference.entry
  }

  /** `crops[..m]` is what is sent of the pairs completed before this one. */
  ghost predicate SentBefore(crops: seq<Crop>, m: nat, build: Crop, reference: Crop)
  {
    && m <= |crops| && m % 2 == 0
    && (forall x :: 0 <= x < m ==> crops[x].entry < Completed(build, reference))
    && (forall x :: m <= x < |crops| && x % 2 == 0 && x + 1 < |crops| ==>
          Completed(crops[x], crops[x + 1]) >= Completed(build, reference))
  }

  /** There is room for the pair beside what is sent before it and it comes next, or there is
      not and neither crop is sent. */
  ghost predicate SentIfRoom(crops: seq<Crop>, m: nat, build: Crop, reference: Crop)
  {
    && SentBefore(crops, m, build, reference)
    && if m + 2 <= 8
          && SumPixels(crops[..m]) + build.width * build.height + reference.width * reference.height <= 1_500_000
       then m + 2 <= |crops| && crops[m] == build && crops[m + 1] == reference
       else build !in crops && reference !in crops
  }

  /** The only two crops of their region, one of each kind. */
  predicate Lone(measured: seq<Crop>, build: Crop, reference: Crop)
  {
    && build in measured && reference in measured && build.kind == Build && reference.kind == Reference
    && build.region == reference.region
    && forall c :: c in measured && c.region == build.region ==> c == build || c == reference
  }

  /** Such crops are always a pair. */
  lemma {:induction false} LonePairIsJoined(measured: seq<Crop>, build: Crop, reference: Crop)
    requires Increasing(measured) && Lone(measured, build, reference)
    ensures Pair(build, reference) in PairUp(measured).pairs
  {
    var pairs := PairUp(measured).pairs;
    PairingIsRight(measured);
    PairsAreSound(measured);
    var i :| 0 <= i < |measured| && measured[i] == build;
    var j :| 0 <= j < |measured| && measured[j] == reference;
    var a, b := if i < j then i else j, if i < j then j else i;
    forall k | a < k < b ensures measured[k].region != measured[a].region { assert measured[k] in measured; }
    forall h | 0 <= h < a ensures !Joined(pairs, measured[h], measured[a]) {
      assert measured[h] in measured && measured[h].region != measured[a].region;
      NotAcrossRegions(measured, measured[h], measured[a]);
    }
    assert RightlyJoined(measured, pairs, a, b);
  }

  lemma NotAcrossRegions(measured: seq<Crop>, a: Crop, b: Crop)
    requires a.region != b.region
    ensures !Joined(PairUp(measured).pairs, a, b)
  {
    PairsAreSound(measured);
  }

  /** Pairs stand in the order in which they were completed, and within the list. */
  ghost predicate InOrder(pairs: seq<Pair>, measured: seq<Crop>)
  {
    && (forall i, j :: 0 <= i < j < |pairs| ==>
          Completed(pairs[i].build, pairs[i].reference) < Completed(pairs[j].build, pairs[j].reference))
    && (forall i :: 0 <= i < |pairs| ==> pairs[i].build in measured && pairs[i].reference in measured)
  }

  lemma OrderGoesOn(pairs: seq<Pair>, p: Pair, before: seq<Crop>, c: Crop)
    requires InOrder(pairs, before) && forall d :: d in before ==> d.entry < c.entry
    requires (p.build == c && p.reference in before) || (p.reference == c && p.build in before)
    ensures InOrder(pairs + [p], before + [c])
  {}

  lemma StillInOrder(pairs: seq<Pair>, before: seq<Crop>, c: Crop)
    requires InOrder(pairs, before)
    ensures InOrder(pairs, before + [c])
  {}

  lemma {:induction false} PairsAreInOrder(measured: seq<Crop>)
    requires Increasing(measured)
    ensures InOrder(PairUp(measured).pairs, measured)
  {
    if measured != [] {
      var before, c := measured[..|measured| - 1], measured[|measured| - 1];
      PairsAreInOrder(before);
      PairsAreSound(before);
      assert before + [c] == measured;
      var p := PairUp(before);
      if c.region in p.waiting && p.waiting[c.region].kind != c.kind {
        var w := p.waiting[c.region];
        OrderGoesOn(p.pairs, if w.kind == Build then Pair(w, c) else Pair(c, w), before, c);
      } else {
        StillInOrder(p.pairs, before, c);
      }
    }
  }

  /** A crop that is sent is one of a chosen pair. */
  lemma {:induction false} SentIsChosen(pairs: seq<Pair>, chosen: set<nat>, n: nat, x: nat) returns (q: nat)
    requires n <= |pairs| && x < |Sent(pairs, chosen, n)|
    ensures q < n && q in chosen
    ensures Sent(pairs, chosen, n)[x] == if x % 2 == 0 then pairs[q].build else pairs[q].reference
    ensures |Sent(pairs, chosen, q)| == x - x % 2
  {
    var before := Sent(pairs, chosen, n - 1);
    SentIsEven(pairs, chosen, n - 1);
    if x < |before| {
      q := SentIsChosen(pairs, chosen, n - 1, x);
    } else {
      q := n - 1;
    }
  }

  lemma {:induction false} SentIsEven(pairs: seq<Pair>, chosen: set<nat>, n: nat)
    requires n <= |pairs|
    ensures |Sent(pairs, chosen, n)| == 2 * Number(chosen, n)
  {
    if n > 0 { SentIsEven(pairs, chosen, n - 1); }
  }

  lemma {:induction false} SentGrows(pairs: seq<Pair>, chosen: set<nat>, i: nat, n: nat)
    requires i <= n <= |pairs|
    ensures |Sent(pairs, chosen, i)| <= |Sent(pairs, chosen, n)|
    ensures Sent(pairs, chosen, n)[..|Sent(pairs, chosen, i)|] == Sent(pairs, chosen, i)
  {
    if i < n { SentGrows(pairs, chosen, i, n - 1); }
  }

  lemma {:induction false} PlaceOfPair(measured: seq<Crop>, pairs: seq<Pair>, chosen: set<nat>, i: nat)
    requires InOrder(pairs, measured) && i < |pairs|
    ensures SentBefore(Sent(pairs, chosen, |pairs|), |Sent(pairs, chosen, i)|, pairs[i].build, pairs[i].reference)
  {
    var crops, sofar := Sent(pairs, chosen, |pairs|), Sent(pairs, chosen, i);
    SentGrows(pairs, chosen, i, |pairs|);
    SentIsEven(pairs, chosen, i);
    forall x | 0 <= x < |sofar| ensures crops[x].entry < Completed(pairs[i].build, pairs[i].reference) {
      assert crops[x] == sofar[x];
      var q := SentIsChosen(pairs, chosen, i, x);
    }
    forall x | |sofar| <= x < |crops| && x % 2 == 0 && x + 1 < |crops|
      ensures Completed(crops[x], crops[x + 1]) >= Completed(pairs[i].build, pairs[i].reference) {
      LaterCompletesLater(measured, pairs, chosen, i, x);
    }
  }

  /** Every pair is sent exactly if it has room beside what was sent before it. */
  lemma {:induction false} PairIsSentIfRoom(measured: seq<Crop>, pairs: seq<Pair>, chosen: set<nat>, i: nat)
    requires InOrder(pairs, measured) && NoneShared(pairs) && i < |pairs| && FirstFit(Costs(pairs), chosen, |pairs|)
    ensures SentIfRoom(Sent(pairs, chosen, |pairs|), |Sent(pairs, chosen, i)|, pairs[i].build, pairs[i].reference)
  {
    PlaceOfPair(measured, pairs, chosen, i);
    SentGrows(pairs, chosen, i, |pairs|);
    SentIsEven(pairs, chosen, i);
    SentAddsUp(pairs, chosen, i);
    assert RightlyDecided(Costs(pairs), chosen, i);
    SentComesNext(pairs, chosen, i);
    if i !in chosen { NotChosenNotSent(pairs, chosen, i); }
  }

  lemma {:induction false} LaterCompletesLater(measured: seq<Crop>, pairs: seq<Pair>, chosen: set<nat>, i: nat, x: nat)
    requires InOrder(pairs, measured) && i < |pairs|
    requires |Sent(pairs, chosen, i)| <= x && x + 1 < |Sent(pairs, chosen, |pairs|)| && x % 2 == 0
    ensures var crops := Sent(pairs, chosen, |pairs|);
            Completed(crops[x], crops[x + 1]) >= Completed(pairs[i].build, pairs[i].reference)
  {
    var q := SentIsChosen(pairs, chosen, |pairs|, x);
    var r := SentIsChosen(pairs, chosen, |pairs|, x + 1);
    SamePlace(pairs, chosen, q, r);
    if q < i {
      SentGrows(pairs, chosen, q + 1, i);
    }
  }

  lemma {:induction false} SamePlace(pairs: seq<Pair>, chosen: set<nat>, q: nat, r: nat)
    requires q < |pairs| && r < |pairs| && q in chosen && r in chosen
    requires |Sent(pairs, chosen, q)| == |Sent(pairs, chosen, r)|
    ensures q == r
  {
    if q < r { SentGrows(pairs, chosen, q + 1, r); }
    if r < q { SentGrows(pairs, chosen, r + 1, q); }
  }

  lemma {:induction false} SentComesNext(pairs: seq<Pair>, chosen: set<nat>, i: nat)
    requires i < |pairs|
    ensures i in chosen ==>
            var crops, m := Sent(pairs, chosen, |pairs|), |Sent(pairs, chosen, i)|;
            m + 2 <= |crops| && crops[m] == pairs[i].build && crops[m + 1] == pairs[i].reference
  {
    if i !in chosen { return; }
    var crops, next := Sent(pairs, chosen, |pairs|), Sent(pairs, chosen, i + 1);
    SentGrows(pairs, chosen, i + 1, |pairs|);
    var m := |Sent(pairs, chosen, i)|;
    assert crops[m] == crops[..|next|][m] == next[m];
    assert crops[m + 1] == crops[..|next|][m + 1] == next[m + 1];
  }

  lemma {:induction false} NotChosenNotSent(pairs: seq<Pair>, chosen: set<nat>, i: nat)
    requires i < |pairs| && i !in chosen && NoneShared(pairs)
    ensures pairs[i].build !in Sent(pairs, chosen, |pairs|) && pairs[i].reference !in Sent(pairs, chosen, |pairs|)
  {
    var crops := Sent(pairs, chosen, |pairs|);
    forall x | 0 <= x < |crops| ensures crops[x] != pairs[i].build && crops[x] != pairs[i].reference {
      var q := SentIsChosen(pairs, chosen, |pairs|, x);
      NotBoth(pairs, q, i);
    }
  }

  lemma NotBoth(pairs: seq<Pair>, q: nat, i: nat)
    requires q < |pairs| && i < |pairs| && q != i && NoneShared(pairs)
    ensures pairs[q].build != pairs[i].build && pairs[q].build != pairs[i].reference
    ensures pairs[q].reference != pairs[i].build && pairs[q].reference != pairs[i].reference
  {
    var a, b := if q < i then q else i, if q < i then i else q;
    assert pairs[a].build.entry in {pairs[a].build.entry, pairs[a].reference.entry};
    assert pairs[a].reference.entry in {pairs[a].build.entry, pairs[a].reference.entry};
  }

  /** A region with one crop of each kind has both sent, unless a cap has no room for them
      beside what is sent before them. */
  lemma {:induction false} LoneIsSentIfRoom(measured: seq<Crop>, chosen: set<nat>, build: Crop, reference: Crop)
    requires Increasing(measured) && Lone(measured, build, reference)
    requires var pairs := PairUp(measured).pairs; FirstFit(Costs(pairs), chosen, |pairs|)
    ensures var pairs := PairUp(measured).pairs;
            exists m :: SentIfRoom(Sent(pairs, chosen, |pairs|), m, build, reference)
  {
    var pairs := PairUp(measured).pairs;
    LonePairIsJoined(measured, build, reference);
    PairsAreInOrder(measured);
    EachCropOnce(measured);
    var i :| 0 <= i < |pairs| && pairs[i] == Pair(build, reference);
    PairIsSentIfRoom(measured, pairs, chosen, i);
  }

  /** Never fails: an unreadable sidecar gives no crops. Otherwise whatever is sent was measured
      and is in build and reference pairs within both caps, the pixel total is exact, and a
      pair is missing only because it would have broken a cap beside the pairs taken before
      it. */
  method GroundingFromSidecar(sidecar: Sidecar) returns (crops: seq<Crop>, pixels: nat, ghost chosen: set<nat>)
    ensures Grounded(crops, MeasuredOf(sidecar))
    ensures |crops| <= 8 && pixels <= 1_500_000 && pixels == SumPixels(crops)
    ensures var pairs := PairUp(MeasuredOf(sidecar)).pairs;
            FirstFit(Costs(pairs), chosen, |pairs|) && crops == Sent(pairs, chosen, |pairs|)
    ensures forall b, r :: Lone(MeasuredOf(sidecar), b, r) ==> exists m :: SentIfRoom(crops, m, b, r)
  {
    if sidecar.Unreadable? {
      return [], 0, {};
    }
    var measured := MeasureAll(sidecar.entries);
    var pairs, orphans := PairAll(measured);
    crops, pixels, chosen := TakePairs(pairs);
    SentAddsUp(pairs, chosen, |pairs|);
    PairsAreSound(measured);
    SentIsGrounded(pairs, chosen, |pairs|, measured);
    forall b, r | Lone(measured, b, r) ensures exists m :: SentIfRoom(crops, m, b, r) {
      LoneIsSentIfRoom(measured, chosen, b, r);
    }
  }

  /** Image tokens, each crop rounded up on its own. */
  function TokensByCrop(crops: seq<Crop>): nat
  {
    if crops == [] then 0
    else TokensByCrop(crops[..|crops| - 1]) + CeilDiv(Area(crops[|crops| - 1]), IMAGE_PIXELS_PER_TOKEN)
  }

  lemma {:induction false} RoundingAddsLittle(crops: seq<Crop>)
    ensures SumPixels(crops) <= TokensByCrop(crops) * IMAGE_PIXELS_PER_TOKEN
    ensures TokensByCrop(crops) * IMAGE_PIXELS_PER_TOKEN <= SumPixels(crops) + |crops| * (IMAGE_PIXELS_PER_TOKEN - 1)
  {
    if crops != [] { RoundingAddsLittle(crops[..|crops| - 1]); }
  }

  /** The crops that are sent fit the image tokens of the reservation, which counts them by the
      whole: counted crop by crop they could come to at most seven tokens more. */
  lemma GroundingFitsTheReservation(crops: seq<Crop>)
    requires |crops| <= MAX_CROPS && SumPixels(crops) <= MAX_CROP_PIXELS
    ensures CeilDiv(SumPixels(crops), IMAGE_PIXELS_PER_TOKEN) <= IMAGE_TOKENS
    ensures CeilDiv(SumPixels(crops), IMAGE_PIXELS_PER_TOKEN) <= TokensByCrop(crops) < IMAGE_TOKENS + MAX_CROPS
  {
    RoundingAddsLittle(crops);
  }
}
