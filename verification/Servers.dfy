/** The selectable server profiles, shared under a lock (`src/client.rs`). */
module Servers {
  import opened Base
  import opened Secret
  import T = ActiveTarget
  import opened Control

  class SharedServers {
    var list: seq<T.Target>

    constructor (targets: seq<T.Target>)
      ensures list == targets
    {
      list := targets;
    }

    method Get(name: string) returns (t: Option<T.Target>)
      ensures t == Find(list, name)
    {
      var i := 0;
      while i < |list|
        invariant 0 <= i <= |list| && Find(list, name) == Find(list[i..], name)
      {
        if list[i].name == name {
          return Some(list[i]);
        }
        assert list[i..][1..] == list[i + 1..];
        i := i + 1;
      }
      t := None;
    }

    /** Append under a free name. */
    method Add(t: T.Target) returns (ok: bool)
      modifies this
      ensures ok <==> forall i :: 0 <= i < |old(list)| ==> old(list)[i].name != t.name
      ensures list == if ok then old(list) + [t] else old(list)
    {
      var taken := Get(t.name);
      ok := taken.None?;
      if ok {
        list := list + [t];
      }
    }

    /** Keep every profile of another name. */
    method Remove(name: string) returns (ok: bool)
      modifies this
      ensures ok <==> |DropTarget(old(list), name)| != |old(list)|
      ensures list == if ok then DropTarget(old(list), name) else old(list)
    {
      var left := [];
      for i := 0 to |list|
        invariant list == old(list) && left == DropTarget(list[..i], name)
      {
        assert list[..i + 1][..i] == list[..i];
        if list[i].name != name {
          left := left + [list[i]];
        }
      }
      assert list[..|list|] == list;
      ok := |left| != |list|;
      if ok {
        list := left;
      }
    }

    /** Whether some profile is found in the DHT by this key. */
    method OwnsDiscovery(key: Bytes) returns (owned: bool)
      ensures owned <==> IsDiscovery(list, Some(key))
    {
      for i := 0 to |list|
        invariant forall j :: 0 <= j < i ==> !(list[j].discovery.Some? && Decode(list[j].discovery.value) == Some(key))
      {
        if list[i].discovery.Some? && Decode(list[i].discovery.value) == Some(key) {
          return true;
        }
      }
      owned := false;
    }
  }
}
