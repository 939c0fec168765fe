/**
 The identity directory: handle -> user id and user id -> handle, filled in
 from every user the bot sees. It is process-wide and never forgets; a
 user's newer handle overwrites the older one in the id -> handle direction.
 */
module Identity {
  import opened Options
  import Decimal

  datatype Directory = Directory(ids: map<string, int>, handles: map<int, string>)

  const Empty := Directory(map[], map[])

  /** The handle recorded for a user: the user name, or the first name when the user has none. */
  function DisplayHandle(userName: string, firstName: string): string {
    if userName == "" then firstName else userName
  }

  /** Forward lookup of a handle. */
  function Resolve(d: Directory, handle: string): Option<int> {
    if handle in d.ids then Some(d.ids[handle]) else None
  }

  /** Display name of a user: the last handle recorded, else the decimal id. */
  function NameOf(d: Directory, id: int): (r: string)
    ensures id in d.handles ==> r == d.handles[id]
    ensures id !in d.handles ==> Decimal.ParseInt(r) == Some(id)
  {
    if id in d.handles then d.handles[id]
    else
      Decimal.ParseIntIff(Decimal.IntToString(id), id);
      Decimal.IntToString(id)
  }

  /** Every recorded handle names a user that has a handle, and every recorded handle resolves. */
  ghost predicate Linked(d: Directory) {
    && (forall h :: h in d.ids ==> d.ids[h] in d.handles)
    && (forall u :: u in d.handles ==> d.handles[u] in d.ids)
  }

  /** Records a user seen with the given handle, in both directions. */
  function Observe(d: Directory, id: int, handle: string): (r: Directory)
    ensures Resolve(r, handle) == Some(id)
    ensures NameOf(r, id) == handle
    ensures forall h :: h != handle ==> Resolve(r, h) == Resolve(d, h)
    ensures forall u :: u != id ==> NameOf(r, u) == NameOf(d, u)
    ensures Linked(d) ==> Linked(r)
  {
    Directory(d.ids[handle := id], d.handles[id := handle])
  }
}
