/**
 The MetaBlob store of Server/API.go: a five-level nested map from owner to
 purpose to client to primary key to secondary key, holding a string. Reads
 follow Go's rule that indexing an absent key of a map yields the zero value
 (an empty map, or the empty string at the leaf), so no read ever fails.
 */
module MetaBlobStore {

  /** secondarykey -> value */
  type Entries = map<string, string>
  /** primarykey -> entries */
  type Primaries = map<string, Entries>
  /** client -> primary keys */
  type Clients = map<string, Primaries>
  /** purpose -> clients */
  type Purposes = map<string, Clients>
  /** owner -> purposes: the global `MetaBlob` */
  type Blob = map<string, Purposes>

  /** `MetaBlob[owner]`, returned by `BlobOwners`. */
  function BlobOwners(b: Blob, o: string): (r: Purposes)
    ensures o !in b ==> r == map[]
    ensures o in b ==> r == b[o]
  {
    if o in b then b[o] else map[]
  }

  /** `MetaBlob[owner][purpose]`, returned by `BlobPurpose`. */
  function BlobPurpose(b: Blob, o: string, p: string): (r: Clients)
    ensures !(o in b && p in b[o]) ==> r == map[]
    ensures o in b && p in b[o] ==> r == b[o][p]
  {
    var purposes := BlobOwners(b, o);
    if p in purposes then purposes[p] else map[]
  }

  /** `MetaBlob[owner][purpose][client]`, returned by `BlobPrimaryKey`: the
      primary keys of one client. */
  function BlobPrimaryKey(b: Blob, o: string, p: string, c: string): (r: Primaries)
    ensures !(o in b && p in b[o] && c in b[o][p]) ==> r == map[]
    ensures o in b && p in b[o] && c in b[o][p] ==> r == b[o][p][c]
  {
    var clients := BlobPurpose(b, o, p);
    if c in clients then clients[c] else map[]
  }

  /** `MetaBlob[owner][purpose][client][primarykey]`, returned by
      `BlobClient`: the secondary keys under one primary key. */
  function BlobClient(b: Blob, o: string, p: string, c: string, pk: string): (r: Entries)
    ensures !(o in b && p in b[o] && c in b[o][p] && pk in b[o][p][c]) ==> r == map[]
    ensures o in b && p in b[o] && c in b[o][p] && pk in b[o][p][c] ==> r == b[o][p][c][pk]
  {
    var primaries := BlobPrimaryKey(b, o, p, c);
    if pk in primaries then primaries[pk] else map[]
  }

  /** `MetaBlob[owner][purpose][client][primarykey][secondarykey]`, returned
      by `BlobSecondaryKey`: the stored string, or "" when there is none. */
  function BlobSecondaryKey(b: Blob, o: string, p: string, c: string, pk: string, sk: string): (r: string)
    ensures !HasLeaf(b, o, p, c, pk, sk) ==> r == ""
    ensures HasLeaf(b, o, p, c, pk, sk) ==> r == b[o][p][c][pk][sk]
  {
    var entries := BlobClient(b, o, p, c, pk);
    if sk in entries then entries[sk] else ""
  }

  /** A value is stored under the full five-part key. */
  ghost predicate HasLeaf(b: Blob, o: string, p: string, c: string, pk: string, sk: string)
  {
    o in b && p in b[o] && c in b[o][p] && pk in b[o][p][c] && sk in b[o][p][c][pk]
  }

  /** `MetaBlobEntry`: store `v` under the five-part key, creating each
      missing level on the way down. Go replaces a level that is missing or
      empty by a new empty map; as a value that is the empty map the reads
      above already give. Every other leaf keeps its value. */
  function Put(b: Blob, o: string, p: string, c: string, pk: string, sk: string, v: string): (r: Blob)
    ensures HasLeaf(r, o, p, c, pk, sk) && BlobSecondaryKey(r, o, p, c, pk, sk) == v
    ensures forall o', p', c', pk', sk' :: (o', p', c', pk', sk') != (o, p, c, pk, sk) ==>
      && (HasLeaf(r, o', p', c', pk', sk') <==> HasLeaf(b, o', p', c', pk', sk'))
      && BlobSecondaryKey(r, o', p', c', pk', sk') == BlobSecondaryKey(b, o', p', c', pk', sk')
    ensures r.Keys == b.Keys + {o}
    ensures forall o' :: o' != o ==> BlobOwners(r, o') == BlobOwners(b, o')
  {
    var entries := BlobClient(b, o, p, c, pk)[sk := v];
    var primaries := BlobPrimaryKey(b, o, p, c)[pk := entries];
    var clients := BlobPurpose(b, o, p)[c := primaries];
    var purposes := BlobOwners(b, o)[p := clients];
    b[o := purposes]
  }

  /** `MetaBlobDeleteOwner`: remove an owner and everything beneath it. */
  function DeleteOwner(b: Blob, o: string): (r: Blob)
    ensures BlobOwners(r, o) == map[]
    ensures forall o' :: o' != o ==> BlobOwners(r, o') == BlobOwners(b, o')
    ensures forall p, c, pk, sk :: !HasLeaf(r, o, p, c, pk, sk)
    ensures r.Keys == b.Keys - {o}
    ensures o !in b ==> r == b
  {
    b - {o}
  }

  /** `MetaBlobDeletePurpose`: remove one purpose of an owner and everything
      beneath it. Go's `delete` on an absent key, or on the nil map an absent
      owner reads as, changes nothing; the deletes below test for presence
      first, which gives the same map. */
  function DeletePurpose(b: Blob, o: string, p: string): (r: Blob)
    ensures BlobPurpose(r, o, p) == map[]
    ensures forall o', p' :: (o', p') != (o, p) ==> BlobPurpose(r, o', p') == BlobPurpose(b, o', p')
    ensures forall c, pk, sk :: !HasLeaf(r, o, p, c, pk, sk)
    ensures r.Keys == b.Keys
    ensures BlobOwners(r, o) == BlobOwners(b, o) - {p}
    ensures forall o' :: o' != o ==> BlobOwners(r, o') == BlobOwners(b, o')
    ensures !(o in b && p in b[o]) ==> r == b
  {
    if o in b && p in b[o] then b[o := b[o] - {p}] else b
  }

  /** `MetaBlobDeleteClient`: remove one client and everything beneath it. */
  function DeleteClient(b: Blob, o: string, p: string, c: string): (r: Blob)
    ensures BlobPrimaryKey(r, o, p, c) == map[]
    ensures forall o', p', c' :: (o', p', c') != (o, p, c) ==>
      BlobPrimaryKey(r, o', p', c') == BlobPrimaryKey(b, o', p', c')
    ensures forall pk, sk :: !HasLeaf(r, o, p, c, pk, sk)
    ensures r.Keys == b.Keys
    ensures forall o' :: BlobOwners(r, o').Keys == BlobOwners(b, o').Keys
    ensures BlobPurpose(r, o, p) == BlobPurpose(b, o, p) - {c}
    ensures forall o' :: o' != o ==> BlobOwners(r, o') == BlobOwners(b, o')
    ensures forall p' :: p' != p ==> BlobPurpose(r, o, p') == BlobPurpose(b, o, p')
    ensures !(o in b && p in b[o] && c in b[o][p]) ==> r == b
  {
    if o in b && p in b[o] && c in b[o][p] then b[o := b[o][p := b[o][p] - {c}]] else b
  }

  /** `MetaBlobDeletePrimary`: remove one primary key and everything beneath
      it. */
  function DeletePrimary(b: Blob, o: string, p: string, c: string, pk: string): (r: Blob)
    ensures BlobClient(r, o, p, c, pk) == map[]
    ensures forall o', p', c', pk' :: (o', p', c', pk') != (o, p, c, pk) ==>
      BlobClient(r, o', p', c', pk') == BlobClient(b, o', p', c', pk')
    ensures forall sk :: !HasLeaf(r, o, p, c, pk, sk)
    ensures r.Keys == b.Keys
    ensures forall o' :: BlobOwners(r, o').Keys == BlobOwners(b, o').Keys
    ensures forall o', p' :: BlobPurpose(r, o', p').Keys == BlobPurpose(b, o', p').Keys
    ensures BlobPrimaryKey(r, o, p, c) == BlobPrimaryKey(b, o, p, c) - {pk}
    ensures forall o' :: o' != o ==> BlobOwners(r, o') == BlobOwners(b, o')
    ensures forall p' :: p' != p ==> BlobPurpose(r, o, p') == BlobPurpose(b, o, p')
    ensures forall c' :: c' != c ==> BlobPrimaryKey(r, o, p, c') == BlobPrimaryKey(b, o, p, c')
    ensures !(o in b && p in b[o] && c in b[o][p] && pk in b[o][p][c]) ==> r == b
  {
    var r :=
      if o in b && p in b[o] && c in b[o][p] && pk in b[o][p][c]
      then b[o := b[o][p := b[o][p][c := b[o][p][c] - {pk}]]]
      else b;
    ClientFrame(b, r, o, p, c, pk);
    r
  }

  /** `MetaBlobDeleteEntry`: remove one leaf. */
  function DeleteEntry(b: Blob, o: string, p: string, c: string, pk: string, sk: string): (r: Blob)
    ensures !HasLeaf(r, o, p, c, pk, sk) && BlobSecondaryKey(r, o, p, c, pk, sk) == ""
    ensures forall o', p', c', pk', sk' :: (o', p', c', pk', sk') != (o, p, c, pk, sk) ==>
      && (HasLeaf(r, o', p', c', pk', sk') <==> HasLeaf(b, o', p', c', pk', sk'))
      && BlobSecondaryKey(r, o', p', c', pk', sk') == BlobSecondaryKey(b, o', p', c', pk', sk')
    ensures r.Keys == b.Keys
    ensures forall o' :: BlobOwners(r, o').Keys == BlobOwners(b, o').Keys
    ensures forall o', p' :: BlobPurpose(r, o', p').Keys == BlobPurpose(b, o', p').Keys
    ensures forall o', p', c' :: BlobPrimaryKey(r, o', p', c').Keys == BlobPrimaryKey(b, o', p', c').Keys
    ensures BlobClient(r, o, p, c, pk) == BlobClient(b, o, p, c, pk) - {sk}
    ensures forall o' :: o' != o ==> BlobOwners(r, o') == BlobOwners(b, o')
    ensures forall p' :: p' != p ==> BlobPurpose(r, o, p') == BlobPurpose(b, o, p')
    ensures forall c' :: c' != c ==> BlobPrimaryKey(r, o, p, c') == BlobPrimaryKey(b, o, p, c')
    ensures forall pk' :: pk' != pk ==> BlobClient(r, o, p, c, pk') == BlobClient(b, o, p, c, pk')
    ensures !HasLeaf(b, o, p, c, pk, sk) ==> r == b
  {
    if o in b && p in b[o] && c in b[o][p] && pk in b[o][p][c] && sk in b[o][p][c][pk] then
      var purposes: Purposes := b[o];
      var clients: Clients := purposes[p];
      var primaries: Primaries := clients[c];
      var entries: Entries := primaries[pk] - {sk};
      var r := b[o := purposes[p := clients[c := primaries[pk := entries]]]];
      ClientFrame(b, r, o, p, c, pk);
      LeafFrame(b, r, o, p, c, pk, sk);
      r
    else b
  }

  /** Off the path to `(o, p, c, pk)`, every level of `r` reads as in `b`:
      then so does every primary key off that path. */
  lemma ClientFrame(b: Blob, r: Blob, o: string, p: string, c: string, pk: string)
    requires forall o' :: o' != o ==> BlobOwners(r, o') == BlobOwners(b, o')
    requires forall p' :: p' != p ==> BlobPurpose(r, o, p') == BlobPurpose(b, o, p')
    requires forall c' :: c' != c ==> BlobPrimaryKey(r, o, p, c') == BlobPrimaryKey(b, o, p, c')
    requires forall pk' :: pk' != pk ==> BlobClient(r, o, p, c, pk') == BlobClient(b, o, p, c, pk')
    ensures forall o', p', c', pk' :: (o', p', c', pk') != (o, p, c, pk) ==>
      BlobClient(r, o', p', c', pk') == BlobClient(b, o', p', c', pk')
  {
    forall o', p', c', pk' | (o', p', c', pk') != (o, p, c, pk)
      ensures BlobClient(r, o', p', c', pk') == BlobClient(b, o', p', c', pk')
    {
      if o' != o {
        assert BlobOwners(r, o') == BlobOwners(b, o');
      } else if p' != p {
        assert BlobPurpose(r, o, p') == BlobPurpose(b, o, p');
      } else if c' != c {
        assert BlobPrimaryKey(r, o, p, c') == BlobPrimaryKey(b, o, p, c');
      }
    }
  }

  /** A leaf is stored exactly when its key is among the entries its five-part
      path reads as. */
  lemma LeafInEntries(b: Blob, o: string, p: string, c: string, pk: string, sk: string)
    ensures HasLeaf(b, o, p, c, pk, sk) <==> sk in BlobClient(b, o, p, c, pk)
  {
  }

  /** When every primary key reads as in `b` except `(o, p, c, pk)`, and that
      one differs from `b` at most in `sk`, every other leaf keeps its
      presence and its value. */
  lemma LeafFrame(b: Blob, r: Blob, o: string, p: string, c: string, pk: string, sk: string)
    requires forall o', p', c', pk' :: (o', p', c', pk') != (o, p, c, pk) ==>
      BlobClient(r, o', p', c', pk') == BlobClient(b, o', p', c', pk')
    requires forall sk' :: sk' != sk ==>
      && (sk' in BlobClient(r, o, p, c, pk) <==> sk' in BlobClient(b, o, p, c, pk))
      && (sk' in BlobClient(r, o, p, c, pk) ==> BlobClient(r, o, p, c, pk)[sk'] == BlobClient(b, o, p, c, pk)[sk'])
    ensures forall o', p', c', pk', sk' :: (o', p', c', pk', sk') != (o, p, c, pk, sk) ==>
      && (HasLeaf(r, o', p', c', pk', sk') <==> HasLeaf(b, o', p', c', pk', sk'))
      && BlobSecondaryKey(r, o', p', c', pk', sk') == BlobSecondaryKey(b, o', p', c', pk', sk')
  {
    forall o', p', c', pk', sk' | (o', p', c', pk', sk') != (o, p, c, pk, sk)
      ensures HasLeaf(r, o', p', c', pk', sk') <==> HasLeaf(b, o', p', c', pk', sk')
      ensures BlobSecondaryKey(r, o', p', c', pk', sk') == BlobSecondaryKey(b, o', p', c', pk', sk')
    {
      LeafInEntries(r, o', p', c', pk', sk');
      LeafInEntries(b, o', p', c', pk', sk');
    }
  }

  /** Writing a leaf and reading it back, at every depth of the path. */
  lemma PutThenGet(b: Blob, o: string, p: string, c: string, pk: string, sk: string, v: string)
    ensures var r := Put(b, o, p, c, pk, sk, v);
      && BlobClient(r, o, p, c, pk) == BlobClient(b, o, p, c, pk)[sk := v]
      && BlobPrimaryKey(r, o, p, c) == BlobPrimaryKey(b, o, p, c)[pk := BlobClient(r, o, p, c, pk)]
      && BlobPurpose(r, o, p) == BlobPurpose(b, o, p)[c := BlobPrimaryKey(r, o, p, c)]
      && BlobOwners(r, o) == BlobOwners(b, o)[p := BlobPurpose(r, o, p)]
  {
  }

  /** Deleting a prefix makes every read at or under it empty. */
  lemma DeletedPrefixReadsEmpty(b: Blob, o: string, p: string, c: string, pk: string, sk: string)
    ensures BlobSecondaryKey(DeleteOwner(b, o), o, p, c, pk, sk) == ""
    ensures BlobSecondaryKey(DeletePurpose(b, o, p), o, p, c, pk, sk) == ""
    ensures BlobSecondaryKey(DeleteClient(b, o, p, c), o, p, c, pk, sk) == ""
    ensures BlobSecondaryKey(DeletePrimary(b, o, p, c, pk), o, p, c, pk, sk) == ""
    ensures BlobPurpose(DeleteOwner(b, o), o, p) == map[]
    ensures BlobPrimaryKey(DeleteOwner(b, o), o, p, c) == map[]
    ensures BlobClient(DeleteOwner(b, o), o, p, c, pk) == map[]
    ensures BlobPrimaryKey(DeletePurpose(b, o, p), o, p, c) == map[]
    ensures BlobClient(DeletePurpose(b, o, p), o, p, c, pk) == map[]
    ensures BlobClient(DeleteClient(b, o, p, c), o, p, c, pk) == map[]
  {
  }
}
