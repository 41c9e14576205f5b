/** Devices of the protocol gateway and their tags: the changes that a tag message makes to the tag list
    of a cloned device, in place, and the tag index of the command handler. */
module Devices {

  datatype Tag = Tag(id: string, name: string, address: nat, writable: bool)

  datatype Settings = Settings(id: string, name: string, protocol: string, enabled: bool,
      pollInterval: int, subscribe: bool)

  datatype TagAction = CreateTag | UpdateTag | DeleteTag | OtherAction

  // ----- What a tag message does

  predicate HasTag(tags: seq<Tag>, id: string) { exists i :: 0 <= i < |tags| && tags[i].id == id }

  /** The first tag with the id is replaced; without one the tag is appended. */
  function Upsert(tags: seq<Tag>, tag: Tag): seq<Tag> {
    if tags == [] then [tag]
    else if tags[0].id == tag.id then [tag] + tags[1..]
    else [tags[0]] + Upsert(tags[1..], tag)
  }

  function Without(tags: seq<Tag>, id: string): seq<Tag> {
    if tags == [] then []
    else
      var rest := Without(tags[..|tags| - 1], id);
      if tags[|tags| - 1].id == id then rest else rest + [tags[|tags| - 1]]
  }

  function Changed(tags: seq<Tag>, action: TagAction, tag: Tag): seq<Tag> {
    match action
    case CreateTag => Upsert(tags, tag)
    case UpdateTag => Upsert(tags, tag)
    case DeleteTag => Without(tags, tag.id)
    case OtherAction => tags
  }

  ghost predicate UniqueIds(tags: seq<Tag>) {
    forall i, j :: 0 <= i < j < |tags| ==> tags[i].id != tags[j].id
  }

  lemma {:induction false} UpsertFinds(tags: seq<Tag>, tag: Tag)
    ensures tag in Upsert(tags, tag)
    ensures forall id :: HasTag(Upsert(tags, tag), id) <==> HasTag(tags, id) || id == tag.id
    ensures forall t :: t in Upsert(tags, tag) ==> t == tag || t in tags
    ensures UniqueIds(tags) ==>
              UniqueIds(Upsert(tags, tag)) && forall t :: t in tags && t.id != tag.id ==> t in Upsert(tags, tag)
  {
    if tags != [] {
      assert tags == [tags[0]] + tags[1..];
      if tags[0].id != tag.id {
        UpsertFinds(tags[1..], tag);
        HeadOrRest(tags);
        HeadOrRest(Upsert(tags, tag));
      } else {
        HeadOrRest(tags);
        HeadOrRest(Upsert(tags, tag));
      }
    }
  }

  /** The tag takes the place of the first tag with its id, or comes last; all others stay where they are. */
  lemma {:induction false} UpsertIs(tags: seq<Tag>, tag: Tag)
    ensures !HasTag(tags, tag.id) ==> Upsert(tags, tag) == tags + [tag]
    ensures forall i :: 0 <= i < |tags| && tags[i].id == tag.id && !HasTag(tags[..i], tag.id) ==>
              Upsert(tags, tag) == tags[i := tag]
  {
    if tags != [] {
      HeadOrRest(tags);
      if tags[0].id != tag.id {
        UpsertIs(tags[1..], tag);
        forall i | 0 <= i < |tags| && tags[i].id == tag.id && !HasTag(tags[..i], tag.id)
          ensures Upsert(tags, tag) == tags[i := tag]
        {
          assert tags[1..][..i - 1] == tags[..i][1..];
          HeadOrRest(tags[..i]);
          assert tags[1..][i - 1] == tags[i];
          assert tags[i := tag] == [tags[0]] + tags[1..][i - 1 := tag];
        }
      } else {
        forall i | 0 < i < |tags| ensures HasTag(tags[..i], tag.id) { assert tags[..i][0] == tags[0]; }
      }
    }
  }

  /** Deleting from a list is deleting from its parts, so what is left keeps its order. */
  lemma {:induction false} WithoutParts(a: seq<Tag>, b: seq<Tag>, id: string)
    ensures Without(a + b, id) == Without(a, id) + Without(b, id)
    decreases |b|
  {
    if b == [] {
      assert a + b == a;
    } else {
      assert (a + b)[..|a + b| - 1] == a + b[..|b| - 1];
      WithoutParts(a, b[..|b| - 1], id);
    }
  }

  /** What a tag message comes to: creating and updating are the same, and an unknown action does nothing. */
  lemma ChangeIs(tags: seq<Tag>, action: TagAction, tag: Tag)
    ensures action.CreateTag? || action.UpdateTag? ==> tag in Changed(tags, action, tag)
    ensures action.CreateTag? || action.UpdateTag? ==>
              Changed(tags, action, tag) == Changed(tags, CreateTag, tag)
    ensures action.DeleteTag? ==> !HasTag(Changed(tags, action, tag), tag.id)
    ensures action.OtherAction? ==> Changed(tags, action, tag) == tags
  {
    UpsertFinds(tags, tag);
    WithoutIsExact(tags, tag.id);
    var left := Without(tags, tag.id);
    forall i | 0 <= i < |left| ensures left[i].id != tag.id { assert left[i] in multiset(left); }
  }

  lemma HeadOrRest(tags: seq<Tag>)
    requires tags != []
    ensures forall id :: HasTag(tags, id) <==> tags[0].id == id || HasTag(tags[1..], id)
    ensures UniqueIds(tags) <==> UniqueIds(tags[1..]) && !HasTag(tags[1..], tags[0].id)
  {
    assert forall i :: 1 <= i < |tags| ==> tags[1..][i - 1] == tags[i];
  }

  /** Deleting takes out every tag with the id, and nothing else, and keeps the order. */
  lemma {:induction false} WithoutIsExact(tags: seq<Tag>, id: string)
    ensures forall t :: multiset(Without(tags, id))[t] == if t.id == id then 0 else multiset(tags)[t]
    ensures !HasTag(tags, id) ==> Without(tags, id) == tags
  {
    if tags != [] {
      var n := |tags| - 1;
      WithoutIsExact(tags[..n], id);
      assert tags == tags[..n] + [tags[n]];
    }
  }

  /** A tag message that is delivered twice changes nothing the second time. */
  lemma {:induction false} ChangeIsIdempotent(tags: seq<Tag>, action: TagAction, tag: Tag)
    ensures Changed(Changed(tags, action, tag), action, tag) == Changed(tags, action, tag)
  {
    match action
    case CreateTag => UpsertIsIdempotent(tags, tag);
    case UpdateTag => UpsertIsIdempotent(tags, tag);
    case DeleteTag =>
      WithoutIsExact(tags, tag.id);
      var left := Without(tags, tag.id);
      forall i | 0 <= i < |left|
        ensures left[i].id != tag.id
      {
        assert left[i] in multiset(left);
      }
      WithoutIsExact(left, tag.id);
    case OtherAction =>
  }

  lemma {:induction false} UpsertIsIdempotent(tags: seq<Tag>, tag: Tag)
    ensures Upsert(Upsert(tags, tag), tag) == Upsert(tags, tag)
  {
    if tags != [] && tags[0].id != tag.id {
      UpsertIsIdempotent(tags[1..], tag);
    }
  }

  // ----- The tag index

  /** Where the command handler looks a tag id up. */
  function IndexOf(tags: seq<Tag>): map<string, nat> {
    if tags == [] then map[] else IndexOf(tags[..|tags| - 1])[tags[|tags| - 1].id := |tags| - 1]
  }

  /** Every id leads to the last tag that has it, so with unique ids to its only one. */
  lemma {:induction false} IndexIsRight(tags: seq<Tag>, id: string)
    ensures id in IndexOf(tags) <==> HasTag(tags, id)
    ensures id in IndexOf(tags) ==>
              var i := IndexOf(tags)[id];
              i < |tags| && tags[i].id == id && forall j :: i < j < |tags| ==> tags[j].id != id
  {
    if tags != [] {
      var n := |tags| - 1;
      IndexIsRight(tags[..n], id);
      assert forall i :: 0 <= i < n ==> tags[..n][i] == tags[i];
    }
  }

  // ----- Device objects

  class Device {
    const settings: Settings
    var tags: array<Tag>
    var count: nat

    ghost predicate Valid()
      reads this
    {
      count <= tags.Length
    }

    function Tags(): seq<Tag>
      requires Valid()
      reads this, tags
    {
      tags[..count]
    }

    constructor (settings: Settings, list: seq<Tag>)
      ensures this.settings == settings && Valid() && fresh(tags) && Tags() == list
    {
      this.settings := settings;
      tags := new Tag[|list|](i requires 0 <= i < |list| => list[i]);
      count := |list|;
    }

    /** cloneDevice: the same settings and a tag slice of its own. */
    constructor Clone(d: Device)
      requires d.Valid()
      ensures settings == d.settings && Valid() && fresh(tags) && Tags() == d.Tags()
    {
      settings := d.settings;
      var list := d.Tags();
      tags := new Tag[|list|](i requires 0 <= i < |list| => list[i]);
      count := |list|;
    }

    /** The create and update branches of a tag message: they are the same loop. */
    method UpsertTag(tag: Tag)
      requires Valid()
      modifies this`tags, this`count, tags
      ensures Valid() && Tags() == Upsert(old(Tags()), tag)
      ensures fresh(tags) || tags == old(tags)
    {
      ghost var before := Tags();
      var i := 0;
      while i < count && tags[i].id != tag.id
        invariant 0 <= i <= count
        invariant Tags() == before && Upsert(before, tag) == before[..i] + Upsert(before[i..], tag)
      {
        assert before[i] == tags[i];
        assert before[i..] == [before[i]] + before[i + 1..];
        assert before[..i + 1] == before[..i] + [before[i]];
        i := i + 1;
      }
      if i < count {
        assert before[i..][1..] == before[i + 1..];
        tags[i] := tag;
        assert Tags() == before[..i] + [tag] + before[i + 1..];
      } else {
        var list := Tags() + [tag];
        tags := new Tag[|list|](k requires 0 <= k < |list| => list[k]);
        count := |list|;
        assert before[..i] == before && before[i..] == [];
        assert Tags() == before + [tag];
      }
    }

    /** The delete branch: the kept tags are written over the front of the slice that is being read. */
    method DeleteTag(id: string)
      requires Valid()
      modifies this`count, tags
      ensures Valid() && Tags() == Without(old(Tags()), id)
    {
      ghost var before := Tags();
      var kept := 0;
      for i := 0 to count
        invariant kept <= i && count == old(count) <= tags.Length
        invariant forall k :: i <= k < count ==> tags[k] == before[k]
        invariant tags[..kept] == Without(before[..i], id)
      {
        assert before[..i + 1][..i] == before[..i] && before[..i + 1][i] == before[i];
        if tags[i].id != id {
          tags[kept] := tags[i];
          kept := kept + 1;
          assert tags[..kept] == tags[..kept - 1] + [before[i]];
        }
      }
      assert before[..count] == before;
      count := kept;
    }

    method ChangeTags(action: TagAction, tag: Tag)
      requires Valid()
      modifies this`tags, this`count, tags
      ensures Valid() && Tags() == Changed(old(Tags()), action, tag)
      ensures fresh(tags) || tags == old(tags)
    {
      match action
      case CreateTag => UpsertTag(tag);
      case UpdateTag => UpsertTag(tag);
      case DeleteTag => DeleteTag(tag.id);
      case OtherAction =>
    }

    /** buildTagIndex. */
    method BuildTagIndex() returns (index: map<string, nat>)
      requires Valid()
      ensures index == IndexOf(Tags())
    {
      index := map[];
      for i := 0 to count
        invariant index == IndexOf(Tags()[..i])
      {
        assert Tags()[..i + 1][..i] == Tags()[..i];
        index := index[tags[i].id := i];
      }
      assert Tags()[..count] == Tags();
    }
  }
}
