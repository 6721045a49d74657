/**
The API server as seen by a client: named objects that are created once and replaced only by a
writer who has seen the current version (`resourceVersion`).
*/
module ObjectStore {
  import opened Options

  /** Go strings and byte slices, one character a byte. */
  type Bytes = string

  type Data = map<string, Bytes>

  datatype Obj = Obj(data: Data, version: nat)

  /** `clock` is larger than every version handed out so far. */
  datatype Store = Store(objects: map<string, Obj>, clock: nat)

  predicate Valid(s: Store) {
    forall n | n in s.objects :: s.objects[n].version < s.clock
  }

  /** `AlreadyExists` when the name is in use. */
  function Create(s: Store, name: string, data: Data): Option<Store> {
    if name in s.objects then None else Some(Write(s, name, data))
  }

  /** `Conflict` unless the object still has the version that was read. */
  function Update(s: Store, name: string, seen: Obj, data: Data): Option<Store> {
    if name in s.objects && s.objects[name].version == seen.version then Some(Write(s, name, data)) else None
  }

  function Write(s: Store, name: string, data: Data): Store {
    Store(s.objects[name := Obj(data, s.clock)], s.clock + 1)
  }

  /** `seen` was read at some time: it is the object still, or an older version of it. */
  predicate Seen(s: Store, name: string, seen: Obj) {
    name in s.objects && seen.version <= s.objects[name].version &&
    (seen.version == s.objects[name].version ==> seen == s.objects[name])
  }

  /** What was read stays read, whatever is written. */
  lemma SeenAfterWrite(s: Store, name: string, seen: Obj, other: string, data: Data)
    requires Valid(s) && Seen(s, name, seen)
    ensures Valid(Write(s, other, data)) && Seen(Write(s, other, data), name, seen)
  {
  }
}
