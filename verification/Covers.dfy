/**
 Which photo stands for an item: the client's normalisation of primary photos
 (apps/web/src/purchase-wizard/model.ts) and the cover the server picks when it finalizes a draft
 (apps/api/src/purchases/purchases.service.ts).
 */
module Covers {
  import opened Results

  type Id = nat

  /** isPrimary may be undefined; documents take part in nothing. */
  datatype Media = Media(id: Id, photo: bool, targetItemId: Option<string>, isPrimary: Option<bool>)

  /** Photos of no item, or of an empty one, stand for the whole purchase. */
  datatype Target = Item(id: string) | WholePurchase

  function TargetOf(m: Media): Target {
    if m.targetItemId.Some? && m.targetItemId.value != "" then Item(m.targetItemId.value) else WholePurchase
  }

  predicate PhotoOf(m: Media, t: Target) {
    m.photo && TargetOf(m) == t
  }

  predicate MarkedFor(m: Media, t: Target) {
    PhotoOf(m, t) && m.isPrimary == Some(true)
  }

  // ---- The client ----------------------------------------------------------------------

  /** The first of the first n media that is marked, or that is there at all. */
  function FirstMarked(ms: seq<Media>, n: nat, t: Target): (r: Option<Id>)
    requires n <= |ms|
    ensures r.None? ==> forall i | 0 <= i < n :: !MarkedFor(ms[i], t)
  {
    if n == 0 then None
    else
      var before := FirstMarked(ms, n - 1, t);
      if before.Some? then before else if MarkedFor(ms[n - 1], t) then Some(ms[n - 1].id) else None
  }

  function FirstPhoto(ms: seq<Media>, n: nat, t: Target): (r: Option<Id>)
    requires n <= |ms|
    ensures r.None? ==> forall i | 0 <= i < n :: !PhotoOf(ms[i], t)
  {
    if n == 0 then None
    else
      var before := FirstPhoto(ms, n - 1, t);
      if before.Some? then before else if PhotoOf(ms[n - 1], t) then Some(ms[n - 1].id) else None
  }

  function Either(a: Option<Id>, b: Option<Id>): Option<Id> {
    if a.Some? then a else b
  }

  /** The photo that stands for a target: the first marked one, otherwise the first one. */
  function Primary(ms: seq<Media>, t: Target): Option<Id> {
    Either(FirstMarked(ms, |ms|, t), FirstPhoto(ms, |ms|, t))
  }

  function Settled(ms: seq<Media>, m: Media): Media {
    if m.photo then m.(isPrimary := Some(Primary(ms, TargetOf(m)) == Some(m.id))) else m
  }

  function Normalized(ms: seq<Media>): (r: seq<Media>)
    ensures |r| == |ms| && forall i | 0 <= i < |ms| :: r[i] == Settled(ms, ms[i])
  {
    seq(|ms|, i requires 0 <= i < |ms| => Settled(ms, ms[i]))
  }

  method NormalizePrimaryPhotos(photos: seq<Media>) returns (r: seq<Media>)
    ensures r == Normalized(photos)
  {
    var primaryByTarget: map<Target, Id> := map[];
    for i := 0 to |photos|
      invariant forall t :: MapGives(primaryByTarget, t) == FirstMarked(photos, i, t)
    {
      if photos[i].photo && photos[i].isPrimary == Some(true) {
        var target := TargetOf(photos[i]);
        if target !in primaryByTarget {
          primaryByTarget := primaryByTarget[target := photos[i].id];
        }
      }
    }
    ghost var marked := primaryByTarget;
    for i := 0 to |photos|
      invariant forall t :: MapGives(primaryByTarget, t) == Either(MapGives(marked, t), FirstPhoto(photos, i, t))
    {
      if photos[i].photo {
        var target := TargetOf(photos[i]);
        if target !in primaryByTarget {
          primaryByTarget := primaryByTarget[target := photos[i].id];
        }
      }
    }
    r := [];
    for i := 0 to |photos|
      invariant |r| == i && forall j | 0 <= j < i :: r[j] == Settled(photos, photos[j])
    {
      var photo := photos[i];
      if photo.photo {
        var target := TargetOf(photo);
        assert MapGives(primaryByTarget, target) == Primary(photos, target);
        var isPrimary := target in primaryByTarget && primaryByTarget[target] == photo.id;
        r := r + [if photo.isPrimary == Some(isPrimary) then photo else photo.(isPrimary := Some(isPrimary))];
      } else {
        r := r + [photo];
      }
    }
  }

  ghost function MapGives(m: map<Target, Id>, t: Target): Option<Id> {
    if t in m then Some(m[t]) else None
  }

  // ---- What the normalisation guarantees -----------------------------------------------

  lemma {:induction false} MarkedExists(ms: seq<Media>, n: nat, t: Target) returns (i: nat)
    requires n <= |ms| && FirstMarked(ms, n, t).Some?
    ensures i < n && MarkedFor(ms[i], t) && FirstMarked(ms, n, t) == Some(ms[i].id)
    ensures forall j | 0 <= j < i :: !MarkedFor(ms[j], t)
  {
    if FirstMarked(ms, n - 1, t).Some? {
      i := MarkedExists(ms, n - 1, t);
    } else {
      i := n - 1;
    }
  }

  lemma {:induction false} PhotoExists(ms: seq<Media>, n: nat, t: Target) returns (i: nat)
    requires n <= |ms| && FirstPhoto(ms, n, t).Some?
    ensures i < n && PhotoOf(ms[i], t) && FirstPhoto(ms, n, t) == Some(ms[i].id)
    ensures forall j | 0 <= j < i :: !PhotoOf(ms[j], t)
  {
    if FirstPhoto(ms, n - 1, t).Some? {
      i := PhotoExists(ms, n - 1, t);
    } else {
      i := n - 1;
    }
  }

  /** The photo that stands for a target is one of its photos. */
  lemma PrimaryExists(ms: seq<Media>, t: Target, k: nat) returns (i: nat)
    requires k < |ms| && PhotoOf(ms[k], t)
    ensures i < |ms| && PhotoOf(ms[i], t) && Primary(ms, t) == Some(ms[i].id)
  {
    if FirstMarked(ms, |ms|, t).Some? {
      i := MarkedExists(ms, |ms|, t);
    } else {
      i := PhotoExists(ms, |ms|, t);
    }
  }

  predicate SameButMark(a: Media, b: Media) {
    b == a.(isPrimary := b.isPrimary)
  }

  predicate OtherId(ms: seq<Media>, i: nat, j: nat)
    requires i < |ms| && j < |ms|
  {
    ms[i].id != ms[j].id
  }

  ghost predicate DistinctIds(ms: seq<Media>) {
    forall i, j | 0 <= i < j < |ms| :: OtherId(ms, i, j)
  }

  /** Exactly one photo of the target is marked. */
  ghost predicate OneMarked(ms: seq<Media>, t: Target) {
    exists i | 0 <= i < |ms| :: MarkedFor(ms[i], t) && OnlyMark(ms, t, i)
  }

  ghost predicate OnlyMark(ms: seq<Media>, t: Target, i: nat) {
    forall j | 0 <= j < |ms| && MarkedFor(ms[j], t) :: j == i
  }

  ghost predicate OneWithId(ms: seq<Media>, t: Target, id: Option<Id>) {
    exists i | 0 <= i < |ms| :: IsPhoto(ms, t, id, i) && forall j | 0 <= j < |ms| && IsPhoto(ms, t, id, j) :: j == i
  }

  predicate IsPhoto(ms: seq<Media>, t: Target, id: Option<Id>, i: nat)
    requires i < |ms|
  {
    PhotoOf(ms[i], t) && Some(ms[i].id) == id
  }

  /** After the normalisation a target has exactly one marked photo, exactly when the id of the photo
      that stands for it is that of one photo only. */
  lemma OneMarkedIff(ms: seq<Media>, t: Target)
    ensures OneMarked(Normalized(ms), t) <==> OneWithId(ms, t, Primary(ms, t))
  {
    var r := Normalized(ms);
    forall i | 0 <= i < |ms|
      ensures MarkedFor(r[i], t) <==> IsPhoto(ms, t, Primary(ms, t), i)
    {
      assert r[i] == Settled(ms, ms[i]);
    }
    if OneMarked(r, t) {
      var i :| 0 <= i < |r| && MarkedFor(r[i], t) && OnlyMark(r, t, i);
      forall j | 0 <= j < |ms| && IsPhoto(ms, t, Primary(ms, t), j)
        ensures j == i
      {
        assert MarkedFor(r[j], t);
      }
    }
    if OneWithId(ms, t, Primary(ms, t)) {
      var i :| 0 <= i < |ms| && IsPhoto(ms, t, Primary(ms, t), i)
        && forall j | 0 <= j < |ms| && IsPhoto(ms, t, Primary(ms, t), j) :: j == i;
      assert OnlyMark(r, t, i);
    }
  }

  /** With distinct ids every target that has a photo has exactly one marked photo. */
  lemma OnePrimaryPerTarget(ms: seq<Media>, t: Target, k: nat)
    requires DistinctIds(ms) && k < |ms| && PhotoOf(ms[k], t)
    ensures OneMarked(Normalized(ms), t)
  {
    var i := PrimaryExists(ms, t, k);
    forall j | 0 <= j < |ms| && IsPhoto(ms, t, Primary(ms, t), j)
      ensures j == i
    {
      assert i < j ==> OtherId(ms, i, j);
      assert j < i ==> OtherId(ms, j, i);
    }
    assert IsPhoto(ms, t, Primary(ms, t), i);
    OneMarkedIff(ms, t);
  }

  /** Nothing but the mark of photos ever changes, and a mark already there is kept: the first one
      of its target stays. */
  lemma NormalizationKeeps(ms: seq<Media>, i: nat)
    requires i < |ms|
    ensures SameButMark(ms[i], Normalized(ms)[i]) && (!ms[i].photo ==> Normalized(ms)[i] == ms[i])
    ensures ms[i].photo && ms[i].isPrimary == Some(true) && (forall j | 0 <= j < i :: !MarkedFor(ms[j], TargetOf(ms[i])))
      ==> Normalized(ms)[i].isPrimary == Some(true)
  {
    var t := TargetOf(ms[i]);
    if ms[i].photo && ms[i].isPrimary == Some(true) && (forall j | 0 <= j < i :: !MarkedFor(ms[j], t)) {
      assert MarkedFor(ms[i], t);
      var k := MarkedExists(ms, |ms|, t);
      assert k == i;
    }
  }

  /** The photo that stands for a target still does afterwards. */
  lemma NormalizationKeepsPrimary(ms: seq<Media>, t: Target)
    ensures Primary(Normalized(ms), t) == Primary(ms, t)
  {
    var r := Normalized(ms);
    forall i | 0 <= i < |ms|
      ensures PhotoOf(r[i], t) <==> PhotoOf(ms[i], t)
    {
    }
    if k :| 0 <= k < |ms| && PhotoOf(ms[k], t) {
      var i := PrimaryExists(ms, t, k);
      assert MarkedFor(r[i], t);
      var j := MarkedExists(r, |r|, t);
    } else {
      NoPrimary(ms, t);
      NoPrimary(r, t);
    }
  }

  lemma NoPrimary(ms: seq<Media>, t: Target)
    requires forall i | 0 <= i < |ms| :: !PhotoOf(ms[i], t)
    ensures Primary(ms, t) == None
  {
    if FirstMarked(ms, |ms|, t).Some? {
      var i := MarkedExists(ms, |ms|, t);
    }
    if FirstPhoto(ms, |ms|, t).Some? {
      var i := PhotoExists(ms, |ms|, t);
    }
  }

  /** Normalising twice changes nothing more. */
  lemma NormalizationIdempotent(ms: seq<Media>)
    ensures Normalized(Normalized(ms)) == Normalized(ms)
  {
    var r := Normalized(ms);
    forall i | 0 <= i < |r|
      ensures Normalized(r)[i] == r[i]
    {
      NormalizationKeepsPrimary(ms, TargetOf(ms[i]));
    }
  }

  // ---- Choosing and moving photos ------------------------------------------------------

  /** find: the first photo with this id. */
  function FindPhoto(ms: seq<Media>, n: nat, id: Id): (r: Option<nat>)
    requires n <= |ms|
    ensures r.Some? ==> r.value < n && ms[r.value].photo && ms[r.value].id == id
    ensures r.None? ==> forall i | 0 <= i < n :: !(ms[i].photo && ms[i].id == id)
  {
    if n == 0 then None
    else
      var before := FindPhoto(ms, n - 1, id);
      if before.Some? then before else if ms[n - 1].photo && ms[n - 1].id == id then Some(n - 1) else None
  }

  function MarkOnly(m: Media, t: Target, id: Id): Media {
    if PhotoOf(m, t) then m.(isPrimary := Some(m.id == id)) else m
  }

  function AllMarked(ms: seq<Media>, t: Target, id: Id): (r: seq<Media>)
    ensures |r| == |ms| && forall i | 0 <= i < |ms| :: r[i] == MarkOnly(ms[i], t, id)
  {
    seq(|ms|, i requires 0 <= i < |ms| => MarkOnly(ms[i], t, id))
  }

  function SetPrimary(ms: seq<Media>, id: Id): seq<Media> {
    var selected := FindPhoto(ms, |ms|, id);
    if selected.None? then Normalized(ms) else Normalized(AllMarked(ms, TargetOf(ms[selected.value]), id))
  }

  function Moved(ms: seq<Media>, id: Id, target: Option<string>): (r: seq<Media>)
    ensures |r| == |ms|
    ensures forall i | 0 <= i < |ms| :: r[i] == if ms[i].id == id then ms[i].(targetItemId := target) else ms[i]
  {
    seq(|ms|, i requires 0 <= i < |ms| => if ms[i].id == id then ms[i].(targetItemId := target) else ms[i])
  }

  function Retarget(ms: seq<Media>, id: Id, target: Option<string>): seq<Media> {
    var selected := FindPhoto(ms, |ms|, id);
    if selected.None? then Normalized(ms)
    else if ms[selected.value].isPrimary == Some(true) then SetPrimary(Moved(ms, id, target), id)
    else Normalized(Moved(ms, id, target))
  }

  function Released(ms: seq<Media>, item: string): (r: seq<Media>)
    ensures |r| == |ms|
    ensures forall i | 0 <= i < |ms| ::
      r[i] == if ms[i].targetItemId == Some(item) then ms[i].(targetItemId := None) else ms[i]
  {
    seq(|ms|, i requires 0 <= i < |ms| =>
      if ms[i].targetItemId == Some(item) then ms[i].(targetItemId := None) else ms[i])
  }

  /** The photos of a draft whose item is removed go back to the purchase. */
  function RemoveItem(ms: seq<Media>, item: string): seq<Media> {
    Normalized(Released(ms, item))
  }

  lemma DistinctStays(ms: seq<Media>, r: seq<Media>)
    requires DistinctIds(ms) && |r| == |ms| && forall i | 0 <= i < |ms| :: r[i].id == ms[i].id
    ensures DistinctIds(r)
  {
    forall i, j | 0 <= i < j < |r|
      ensures OtherId(r, i, j)
    {
      assert OtherId(ms, i, j);
    }
  }

  /** The chosen photo becomes the one primary of its target; the other targets keep theirs. */
  lemma SetPrimaryChooses(ms: seq<Media>, k: nat, t: Target)
    requires DistinctIds(ms) && k < |ms| && ms[k].photo
    ensures var r := SetPrimary(ms, ms[k].id);
      && |r| == |ms|
      && r[k].isPrimary == Some(true) && OneMarked(r, TargetOf(ms[k]))
      && Primary(r, t) == if t == TargetOf(ms[k]) then Some(ms[k].id) else Primary(ms, t)
  {
    var id, own := ms[k].id, TargetOf(ms[k]);
    var found := FindPhoto(ms, |ms|, id).value;
    assert found < k ==> OtherId(ms, found, k);
    assert k < found ==> OtherId(ms, k, found);
    var marked := AllMarked(ms, own, id);
    DistinctStays(ms, marked);
    assert MarkedFor(marked[k], own);
    var j := MarkedExists(marked, |marked|, own);
    OnePrimaryPerTarget(marked, own, k);
    NormalizationKeepsPrimary(marked, t);
    if t != own {
      SameMarks(ms, marked, |ms|, t);
    }
  }

  lemma {:induction false} SameMarks(ms: seq<Media>, r: seq<Media>, n: nat, t: Target)
    requires |r| == |ms| && n <= |ms|
    requires forall i | 0 <= i < n ::
      r[i].id == ms[i].id && (PhotoOf(r[i], t) <==> PhotoOf(ms[i], t)) && (MarkedFor(r[i], t) <==> MarkedFor(ms[i], t))
    ensures FirstMarked(r, n, t) == FirstMarked(ms, n, t) && FirstPhoto(r, n, t) == FirstPhoto(ms, n, t)
  {
    if 0 < n {
      SameMarks(ms, r, n - 1, t);
    }
  }

  /** A moved photo ends up with its new target, stays primary if it was, and every target that has
      photos has exactly one primary again, the one it left included. */
  lemma RetargetSettles(ms: seq<Media>, k: nat, target: Option<string>, t: Target, i: nat)
    requires DistinctIds(ms) && k < |ms| && ms[k].photo
    requires i < |ms| && PhotoOf(Moved(ms, ms[k].id, target)[i], t)
    ensures var r := Retarget(ms, ms[k].id, target);
      && |r| == |ms| && OneMarked(r, t)
      && r[k].targetItemId == target
      && (ms[k].isPrimary == Some(true) ==> r[k].isPrimary == Some(true))
  {
    var id := ms[k].id;
    var moved := Moved(ms, id, target);
    var found := FindPhoto(ms, |ms|, id).value;
    assert found < k ==> OtherId(ms, found, k);
    assert k < found ==> OtherId(ms, k, found);
    DistinctStays(ms, moved);
    if ms[k].isPrimary == Some(true) {
      SetPrimarySettles(moved, k, t, i);
    } else {
      OnePrimaryPerTarget(moved, t, i);
    }
  }

  lemma SetPrimarySettles(ms: seq<Media>, k: nat, t: Target, i: nat)
    requires DistinctIds(ms) && k < |ms| && ms[k].photo && i < |ms| && PhotoOf(ms[i], t)
    ensures var r := SetPrimary(ms, ms[k].id);
      |r| == |ms| && OneMarked(r, t) && r[k].isPrimary == Some(true) && r[k].targetItemId == ms[k].targetItemId
  {
    SetPrimaryChooses(ms, k, t);
    var own := TargetOf(ms[FindPhoto(ms, |ms|, ms[k].id).value]);
    var marked := AllMarked(ms, own, ms[k].id);
    DistinctStays(ms, marked);
    assert PhotoOf(marked[i], t);
    OnePrimaryPerTarget(marked, t, i);
  }

  /** Removing an item leaves no photo on it and one primary on every target that has photos. */
  lemma RemoveItemSettles(ms: seq<Media>, item: string, t: Target, i: nat)
    requires DistinctIds(ms) && item != "" && i < |ms| && PhotoOf(Released(ms, item)[i], t)
    ensures var r := RemoveItem(ms, item);
      OneMarked(r, t) && t != Item(item) && forall j | 0 <= j < |r| :: r[j].targetItemId != Some(item)
  {
    var released := Released(ms, item);
    DistinctStays(ms, released);
    OnePrimaryPerTarget(released, t, i);
  }

  // ---- The server ----------------------------------------------------------------------

  /** What the server has of an attachment, in order of creation. */
  datatype Upload = Upload(id: Id, photo: bool, draftItemId: Option<string>, front: bool, isCover: bool)

  function Priority(u: Upload): nat {
    if u.isCover then 2 else if u.front then 1 else 0
  }

  predicate Competes(u: Upload, item: string) {
    item != "" && u.photo && u.draftItemId == Some(item)
  }

  /** The index of the first upload of highest priority among the first n. */
  function Cover(us: seq<Upload>, n: nat, item: string): (r: Option<nat>)
    requires n <= |us|
    ensures r.Some? ==> r.value < n && Competes(us[r.value], item)
    ensures r.None? ==> forall i | 0 <= i < n :: !Competes(us[i], item)
  {
    if n == 0 then None
    else
      var before := Cover(us, n - 1, item);
      if Competes(us[n - 1], item) && (before.None? || Priority(us[before.value]) < Priority(us[n - 1])) then Some(n - 1)
      else before
  }

  /** What the map of chosen covers holds for an item. */
  function Entry(us: seq<Upload>, n: nat, item: string): Option<(Id, nat)>
    requires n <= |us|
  {
    var c := Cover(us, n, item);
    if c.None? then None else Some((us[c.value].id, Priority(us[c.value])))
  }

  ghost predicate Holds(chosen: map<string, (Id, nat)>, item: string, entry: Option<(Id, nat)>) {
    if entry.Some? then item in chosen && chosen[item] == entry.value else item !in chosen
  }

  method NormalizedCoverAttachmentIds(us: seq<Upload>) returns (chosen: map<string, (Id, nat)>)
    ensures forall item :: Holds(chosen, item, Entry(us, |us|, item))
  {
    chosen := map[];
    for k := 0 to |us|
      invariant forall item :: Holds(chosen, item, Entry(us, k, item))
    {
      var u := us[k];
      ghost var before, next := chosen, k + 1;
      if u.photo && u.draftItemId.Some? && u.draftItemId.value != "" {
        var priority := if u.isCover then 2 else if u.front then 1 else 0;
        var item := u.draftItemId.value;
        assert Holds(chosen, item, Entry(us, k, item));
        if item !in chosen || chosen[item].1 < priority {
          chosen := chosen[item := (u.id, priority)];
        }
        assert Holds(chosen, item, Entry(us, next, item));
      }
      forall item
        ensures Holds(chosen, item, Entry(us, next, item))
      {
        assert Holds(before, item, Entry(us, k, item));
      }
    }
  }

  /** The cover has the highest priority of its item, and comes before all others that have it. */
  lemma {:induction false} CoverIsFirstBest(us: seq<Upload>, n: nat, item: string, k: nat)
    requires k < n <= |us| && Competes(us[k], item)
    ensures Cover(us, n, item).Some?
    ensures var c := Cover(us, n, item).value;
      Priority(us[k]) < Priority(us[c]) || (Priority(us[k]) == Priority(us[c]) && c <= k)
  {
    if k < n - 1 {
      CoverIsFirstBest(us, n - 1, item, k);
    }
  }

  /** The uploads of the photos of a normalised draft, in whatever order they arrived: each photo of
      an item is there once, marked as the cover exactly if it is the primary. */
  ghost predicate Uploaded(ms: seq<Media>, us: seq<Upload>) {
    && (forall i | 0 <= i < |ms| && ms[i].photo && TargetOf(ms[i]).Item? :: Arrived(us, ms[i]))
    && (forall k | 0 <= k < |us| && us[k].photo && us[k].draftItemId.Some? && us[k].draftItemId.value != "" :: Sent(ms, us[k]))
  }

  ghost predicate Arrived(us: seq<Upload>, m: Media) {
    exists k | 0 <= k < |us| :: Carries(us[k], m)
  }

  ghost predicate Sent(ms: seq<Media>, u: Upload) {
    exists i | 0 <= i < |ms| :: ms[i].photo && TargetOf(ms[i]).Item? && Carries(u, ms[i])
  }

  predicate Carries(u: Upload, m: Media) {
    u.id == m.id && u.photo && u.draftItemId == m.targetItemId && (u.isCover <==> m.isPrimary == Some(true))
  }

  /** For a normalised draft the server picks, for every item, the photo the client shows as its
      primary, whatever the order of the uploads and whatever their kinds. */
  lemma {:induction false} ServerPicksThePrimary(ms: seq<Media>, us: seq<Upload>, item: string, k: nat)
    requires DistinctIds(ms) && Uploaded(Normalized(ms), us)
    requires item != "" && k < |ms| && PhotoOf(ms[k], Item(item))
    ensures Cover(us, |us|, item).Some?
    ensures Some(us[Cover(us, |us|, item).value].id) == Primary(ms, Item(item))
  {
    var t, r := Item(item), Normalized(ms);
    var p := PrimaryExists(ms, t, k);
    assert MarkedFor(r[p], t);
    var n := ArrivedAs(ms, us, p);
    CoverIsFirstBest(us, |us|, item, n);
    var c := Cover(us, |us|, item).value;
    assert Priority(us[n]) == 2 && us[c].isCover;
    var i := SentBy(ms, us, c);
    assert r[i] == Settled(ms, ms[i]) && TargetOf(ms[i]) == t;
  }

  lemma ArrivedAs(ms: seq<Media>, us: seq<Upload>, i: nat) returns (n: nat)
    requires Uploaded(Normalized(ms), us) && i < |ms| && ms[i].photo && TargetOf(ms[i]).Item?
    ensures n < |us| && Carries(us[n], Normalized(ms)[i])
  {
    var m := Normalized(ms)[i];
    assert Arrived(us, m);
    n :| 0 <= n < |us| && Carries(us[n], m);
  }

  lemma SentBy(ms: seq<Media>, us: seq<Upload>, k: nat) returns (i: nat)
    requires Uploaded(Normalized(ms), us) && k < |us|
    requires us[k].photo && us[k].draftItemId.Some? && us[k].draftItemId.value != ""
    ensures i < |ms| && ms[i].photo && Carries(us[k], Normalized(ms)[i])
  {
    var r := Normalized(ms);
    assert Sent(r, us[k]);
    i :| 0 <= i < |r| && r[i].photo && TargetOf(r[i]).Item? && Carries(us[k], r[i]);
  }

  // ---- Said of the photos themselves ---------------------------------------------------

  /** Both on the same item, or both on none: an empty item is none. */
  predicate SameTarget(a: Media, b: Media) {
    || a.targetItemId == b.targetItemId
    || ((a.targetItemId == None || a.targetItemId == Some("")) && (b.targetItemId == None || b.targetItemId == Some("")))
  }

  /** A photo that shares the target of the k-th one. */
  predicate Rival(ms: seq<Media>, j: nat, k: nat)
    requires j < |ms| && k < |ms|
  {
    ms[j].photo && SameTarget(ms[j], ms[k])
  }

  /** Which photo of a target is the primary afterwards: the first that was marked, otherwise the first. */
  lemma PrimaryIsFirst(ms: seq<Media>, k: nat)
    requires DistinctIds(ms) && k < |ms| && ms[k].photo
    ensures Normalized(ms)[k].isPrimary == Some(
      if ms[k].isPrimary == Some(true) then forall j | 0 <= j < k && Rival(ms, j, k) :: ms[j].isPrimary != Some(true)
      else
        && (forall j | 0 <= j < |ms| && Rival(ms, j, k) :: ms[j].isPrimary != Some(true))
        && (forall j | 0 <= j < k :: !Rival(ms, j, k)))
  {
    var t := TargetOf(ms[k]);
    assert PhotoOf(ms[k], t);
    forall j | 0 <= j < |ms|
      ensures PhotoOf(ms[j], t) <==> Rival(ms, j, k)
    {
    }
    var found := FirstMarked(ms, |ms|, t);
    var i := k;
    if found.Some? {
      i := MarkedExists(ms, |ms|, t);
    } else {
      i := PhotoExists(ms, |ms|, t);
    }
    assert Primary(ms, t) == Some(ms[i].id);
    assert i < k ==> OtherId(ms, i, k);
    assert k < i ==> OtherId(ms, k, i);
    assert found.None? ==> !MarkedFor(ms[k], t);
    if ms[k].isPrimary == Some(true) {
      assert MarkedFor(ms[k], t);
      if i < k {
        assert MarkedFor(ms[i], t);
      }
    } else if found.Some? {
      assert MarkedFor(ms[i], t);
    } else if i < k {
      assert PhotoOf(ms[i], t);
    }
  }

  /** Choosing a primary moves no photo. */
  lemma ChoosingMovesNone(ms: seq<Media>, id: Id, j: nat)
    requires j < |ms|
    ensures |SetPrimary(ms, id)| == |ms| && SetPrimary(ms, id)[j].targetItemId == ms[j].targetItemId
  {
    hide Primary;
  }

  /** A photo that is moved takes its new target, and no other photo loses or gains one. */
  lemma OnlyItsTargetMoves(ms: seq<Media>, id: Id, target: Option<string>, j: nat)
    requires j < |ms|
    ensures |Retarget(ms, id, target)| == |ms|
    ensures Retarget(ms, id, target)[j].targetItemId
      == if ms[j].id == id && (exists i | 0 <= i < |ms| :: ms[i].photo && ms[i].id == id) then target else ms[j].targetItemId
  {
    hide Primary, SetPrimary;
    ChoosingMovesNone(Moved(ms, id, target), id, j);
    if FindPhoto(ms, |ms|, id).Some? {
      var i := FindPhoto(ms, |ms|, id).value;
      assert ms[i].photo && ms[i].id == id;
    }
  }

  /** With an item its photos go to the purchase, and the others stay. */
  lemma RemovingFreesItsPhotos(ms: seq<Media>, item: string, j: nat)
    requires j < |ms|
    ensures |RemoveItem(ms, item)| == |ms|
    ensures RemoveItem(ms, item)[j].targetItemId == if ms[j].targetItemId == Some(item) then None else ms[j].targetItemId
  {
    hide Primary;
  }

  /** The cover of an item: one of its photos marked as cover if there is any, otherwise a front photo if there
      is any, otherwise any of its photos; always the first of its sort. */
  lemma CoverSort(us: seq<Upload>, item: string, k: nat)
    requires k < |us| && Cover(us, |us|, item) == Some(k)
    ensures item != "" && us[k].photo && us[k].draftItemId == Some(item)
    ensures forall j | 0 <= j < |us| && us[j].photo && us[j].draftItemId == Some(item) ::
      && (us[j].isCover ==> us[k].isCover)
      && (us[j].front && !us[j].isCover ==> us[k].isCover || us[k].front)
      && (j < k ==> !(us[j].isCover || (us[j].front && !us[k].isCover) || (!us[k].front && !us[k].isCover)))
  {
    forall j | 0 <= j < |us| && us[j].photo && us[j].draftItemId == Some(item)
      ensures Priority(us[j]) < Priority(us[k]) || (Priority(us[j]) == Priority(us[k]) && k <= j)
    {
      assert Competes(us[j], item);
      CoverIsFirstBest(us, |us|, item, j);
    }
  }
}
