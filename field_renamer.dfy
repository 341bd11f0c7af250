/** The field renamer of the stream-processing runtime: it moves the value of
    one key of an event map to another key, in place, and emits the map. */
module Rename {

  /** A Java reference that may be null: the value a map stores, or returns
      from `get` for a missing key. */
  datatype Nullable<V> = Null | NonNull(value: V)

  /** What `get` returns: the stored value, or null when the key is absent. */
  function Lookup<V>(entries: map<string, Nullable<V>>, key: string): (v: Nullable<V>)
    ensures key !in entries ==> v == Null
    ensures key in entries ==> v == entries[key]
  {
    if key in entries then entries[key] else Null
  }

  /** The map contents after the value of `oldName` has been moved to `newName`. */
  function Renamed<V>(entries: map<string, Nullable<V>>, oldName: string, newName: string)
    : (r: map<string, Nullable<V>>)
    ensures newName in r && r[newName] == Lookup(entries, oldName)
    ensures oldName != newName ==> oldName !in r
    ensures r.Keys == entries.Keys - {oldName} + {newName}
    ensures forall k :: k in entries && k != oldName && k != newName ==> r[k] == entries[k]
  {
    (entries - {oldName})[newName := Lookup(entries, oldName)]
  }

  /** Renaming a key to itself leaves a map that holds the key as it was. */
  lemma RenameToSelf<V>(entries: map<string, Nullable<V>>, name: string)
    requires name in entries
    ensures Renamed(entries, name, name) == entries
  {
  }

  /** Renaming a present key to a fresh name and back restores the map. */
  lemma RenameRoundTrip<V>(entries: map<string, Nullable<V>>, oldName: string, newName: string)
    requires oldName in entries && newName !in entries
    ensures Renamed(Renamed(entries, oldName, newName), newName, oldName) == entries
  {
  }

  /** Renaming an absent key stores null under the new name. */
  lemma RenameAbsent<V>(entries: map<string, Nullable<V>>, oldName: string, newName: string)
    requires oldName !in entries
    ensures Renamed(entries, oldName, newName) == entries[newName := Null]
  {
  }

  /** A mutable event: a `java.util.Map<String, Object>`. */
  class EventMap<V> {
    var entries: map<string, Nullable<V>>

    constructor (entries: map<string, Nullable<V>>)
      ensures this.entries == entries
    {
      this.entries := entries;
    }

    method Get(key: string) returns (v: Nullable<V>)
      ensures v == Lookup(entries, key)
    {
      v := if key in entries then entries[key] else Null;
    }

    method Remove(key: string)
      modifies this
      ensures entries == old(entries) - {key}
    {
      entries := entries - {key};
    }

    method Put(key: string, v: Nullable<V>)
      modifies this
      ensures entries == old(entries)[key := v]
    {
      entries := entries[key := v];
    }
  }

  /** The output collector: the sequence of maps emitted so far. */
  class Collector<V> {
    var emitted: seq<EventMap<V>>

    constructor ()
      ensures emitted == []
    {
      emitted := [];
    }

    method Collect(m: EventMap<V>)
      modifies this
      ensures emitted == old(emitted) + [m]
    {
      emitted := emitted + [m];
    }
  }

  class FieldRenamer {
    var oldPropertyName: string
    var newPropertyName: string

    constructor (oldPropertyName: string, newPropertyName: string)
      ensures this.oldPropertyName == oldPropertyName && this.newPropertyName == newPropertyName
    {
      this.oldPropertyName := oldPropertyName;
      this.newPropertyName := newPropertyName;
    }

    /** Moves the value under the old name to the new name in `input` and emits
        `input` itself, once. The renamer's own names are left unchanged. */
    method FlatMap<V>(input: EventMap<V>, out: Collector<V>)
      modifies input, out
      ensures unchanged(this)
      ensures input.entries == Renamed(old(input.entries), oldPropertyName, newPropertyName)
      ensures out.emitted == old(out.emitted) + [input]
    {
      var propertyValue := input.Get(oldPropertyName);
      input.Remove(oldPropertyName);
      input.Put(newPropertyName, propertyValue);
      out.Collect(input);
    }
  }
}
