/** What a declared run must look like (src/artifactUploads.ts 40-118, 328-359, 578-600) and
    what a plan allows (src/plans.ts 41-61). */
module UploadRules {
  import opened Pricing
  import opened Store
  import opened Sums

  datatype Plan = Plan(
    uploadAllowed: bool, runsPerDay: nat, artifactsPerRun: nat, bytesPerRun: int, bytesStoredMax: int)

  /** A declaration as it arrives: a kind that may be unknown, a hash that may not be 64
      lowercase hex digits, a size that may be anything, a content type that may be absent or
      one no kind allows. */
  datatype DeclaredType = Default | Named(contentType: ContentType) | Foreign

  datatype Declared = Declared(frame: nat, kind: Option<Kind>, sha: Option<Hash>, bytes: int, contentType: DeclaredType)

  /** The same once it passed. */
  datatype Item = Item(frame: nat, kind: Kind, sha: Hash, bytes: nat, contentType: ContentType)

  datatype Reason = NotEntitled | RunsPerDay | ArtifactsPerRun | BytesPerRun | BytesStoredMax | Malformed

  /** The first entry is the default. */
  function Allowed(kind: Kind): (types: seq<ContentType>)
    ensures |types| > 0
  {
    match kind
    case Build | Reference | Diff => [Png]
    case Thumbnail => [Jpeg, Png]
    case Summary | Regions | Crops => [Json]
    case Report => [Html]
  }

  function ContentTypeFor(kind: Kind, declared: DeclaredType): Option<ContentType>
  {
    match declared
    case Default => Some(Allowed(kind)[0])
    case Named(t) => if t in Allowed(kind) then Some(t) else None
    case Foreign => None
  }

  predicate WellDeclared(a: Declared)
  {
    && a.kind.Some? && a.sha.Some? && a.bytes > 0 && ContentTypeFor(a.kind.value, a.contentType).Some?
  }

  function ItemOf(a: Declared): Item
    requires WellDeclared(a)
  {
    Item(a.frame, a.kind.value, a.sha.value, a.bytes, ContentTypeFor(a.kind.value, a.contentType).value)
  }

  /** Which content types each kind may have. */
  predicate Belongs(kind: Kind, t: ContentType)
  {
    match t
    case Png => kind in [Build, Reference, Diff, Thumbnail]
    case Jpeg => kind == Thumbnail
    case Json => kind in [Summary, Regions, Crops]
    case Html => kind == Report
  }

  /** What an artifact is stored as: what it is declared as, if that belongs to its kind; a
      thumbnail that does not say is a JPEG, anything else has one type only. */
  predicate StoredAs(a: Declared, t: ContentType)
  {
    && a.kind.Some? && Belongs(a.kind.value, t)
    && match a.contentType
       case Default => a.kind == Some(Thumbnail) ==> t == Jpeg
       case Named(n) => t == n
       case Foreign => false
  }

  /** An artifact is well declared if its kind is known, its hash is one, its size is positive
      and some content type fits; and that type is unique. */
  lemma WellDeclaredIs(a: Declared)
    ensures WellDeclared(a) <==> a.kind.Some? && a.sha.Some? && a.bytes > 0 && exists t :: StoredAs(a, t)
    ensures WellDeclared(a) ==>
              && StoredAs(a, ItemOf(a).contentType) && (forall t :: StoredAs(a, t) ==> t == ItemOf(a).contentType)
              && ItemOf(a).frame == a.frame && Some(ItemOf(a).kind) == a.kind && Some(ItemOf(a).sha) == a.sha
              && ItemOf(a).bytes == a.bytes
  {
    if a.kind.Some? {
      assert StoredAs(a, Png) || StoredAs(a, Jpeg) || StoredAs(a, Json) || StoredAs(a, Html)
        <==> ContentTypeFor(a.kind.value, a.contentType).Some?;
    }
  }

  /** One artifact of each kind per frame. */
  predicate NoneTwice(artifacts: seq<Declared>)
  {
    forall i, j :: 0 <= i < j < |artifacts| ==>
      !(artifacts[i].frame == artifacts[j].frame && artifacts[i].kind == artifacts[j].kind)
  }

  /** Refuses a run with too many artifacts for the plan, and as malformed one with an
      artifact that is not well declared or declared twice; accepts every other. */
  method Validate(artifacts: seq<Declared>, plan: Plan) returns (refused: Option<Reason>)
    ensures refused == Some(ArtifactsPerRun) <==> |artifacts| > plan.artifactsPerRun
    ensures refused == None
       <==> |artifacts| <= plan.artifactsPerRun && (forall a :: a in artifacts ==> WellDeclared(a)) && NoneTwice(artifacts)
    ensures refused in {None, Some(ArtifactsPerRun), Some(Malformed)}
  {
    if |artifacts| > plan.artifactsPerRun { return Some(ArtifactsPerRun); }
    var seen: set<(nat, Option<Kind>)> := {};
    for i := 0 to |artifacts|
      invariant forall a :: a in artifacts[..i] ==> WellDeclared(a)
      invariant NoneTwice(artifacts[..i])
      invariant forall f, k :: (f, k) in seen <==> exists j :: 0 <= j < i && artifacts[j].frame == f && artifacts[j].kind == k
    {
      var a := artifacts[i];
      assert a in artifacts;
      if a.kind.None? || a.sha.None? || a.bytes <= 0 { return Some(Malformed); }
      if ContentTypeFor(a.kind.value, a.contentType).None? { return Some(Malformed); }
      if (a.frame, a.kind) in seen { return Some(Malformed); }
      seen := seen + {(a.frame, a.kind)};
      assert artifacts[..i + 1] == artifacts[..i] + [a];
    }
    assert artifacts[..|artifacts|] == artifacts;
    refused := None;
  }

  /** `artifacts.reduce((sum, a) => sum + a.bytes, 0)`. */
  function Bytes(items: seq<Item>): nat
  {
    if items == [] then 0 else Bytes(items[..|items| - 1]) + items[|items| - 1].bytes
  }

  /** The declared sizes, added up from the front. */
  ghost function SizesOf(artifacts: seq<Declared>): int
  {
    if artifacts == [] then 0 else artifacts[0].bytes + SizesOf(artifacts[1..])
  }

  lemma {:induction false} BytesFromTheFront(items: seq<Item>)
    requires items != []
    ensures Bytes(items) == items[0].bytes + Bytes(items[1..])
  {
    var n := |items| - 1;
    if n > 0 {
      BytesFromTheFront(items[..n]);
      assert items[..n][1..] == items[1..][..n - 1];
    }
  }

  lemma {:induction false} BytesAreTheSizes(artifacts: seq<Declared>, items: seq<Item>)
    requires |items| == |artifacts| && forall i :: 0 <= i < |items| ==> items[i].bytes == artifacts[i].bytes
    ensures Bytes(items) == SizesOf(artifacts)
  {
    if items != [] {
      BytesFromTheFront(items);
      BytesAreTheSizes(artifacts[1..], items[1..]);
    }
  }

  /** The items the organization does not hold yet. */
  function FreshBytes(items: seq<Item>, held: map<Hash, Key>): nat
  {
    if items == [] then 0
    else
      FreshBytes(items[..|items| - 1], held) + if items[|items| - 1].sha in held then 0 else items[|items| - 1].bytes
  }
}
