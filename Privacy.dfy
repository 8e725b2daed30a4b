/** The privacy toggle: a map over the list that flips the flag of every
    record carrying the given id and copies every other record. */
module Privacy {
  import opened Records

  /** One step of the map: a record whose id matches gets the negated flag,
      every other field copied; any other record is returned as it is.  So
      the flag is the only field that can change, and it changes exactly
      when the id matches. */
  function Flip(f: FileRecord, id: string): (g: FileRecord)
    ensures g.(isPrivate := f.isPrivate) == f
    ensures g.isPrivate != f.isPrivate <==> f.id == id
  {
    if f.id == id then f.(isPrivate := !f.isPrivate) else f
  }

  /** The list after toggling `id`, element by element. */
  function Toggled(files: seq<FileRecord>, id: string): (r: seq<FileRecord>)
    ensures |r| == |files|
    decreases |files|
  {
    if files == [] then [] else [Flip(files[0], id)] + Toggled(files[1..], id)
  }

  /** What toggling does at each position: the id, name, size, kind and URL
      stay; the flag is negated exactly where the id matches. */
  lemma {:induction false} ToggledAt(files: seq<FileRecord>, id: string, k: nat)
    requires k < |files|
    ensures Toggled(files, id)[k].id == files[k].id
    ensures Toggled(files, id)[k].name == files[k].name
    ensures Toggled(files, id)[k].size == files[k].size
    ensures Toggled(files, id)[k].kind == files[k].kind
    ensures Toggled(files, id)[k].url == files[k].url
    ensures Toggled(files, id)[k].isPrivate == (files[k].isPrivate != (files[k].id == id))
    decreases |files|
  {
    if k > 0 {
      ToggledAt(files[1..], id, k - 1);
    }
  }

  /** Records with another id come out identical; records with the id come
      out as themselves with the flag negated. */
  lemma ToggledElement(files: seq<FileRecord>, id: string, k: nat)
    requires k < |files|
    ensures files[k].id != id ==> Toggled(files, id)[k] == files[k]
    ensures files[k].id == id ==>
              Toggled(files, id)[k] == files[k].(isPrivate := !files[k].isPrivate)
  {
    ToggledAt(files, id, k);
  }

  /** Toggling an id that no record has leaves the list unchanged. */
  lemma {:induction false} ToggleMissingId(files: seq<FileRecord>, id: string)
    requires forall k :: 0 <= k < |files| ==> files[k].id != id
    ensures Toggled(files, id) == files
    decreases |files|
  {
    if files != [] {
      ToggleMissingId(files[1..], id);
    }
  }

  /** Toggling the same id twice gives back the original list, also when
      several records share the id. */
  lemma {:induction false} ToggleTwice(files: seq<FileRecord>, id: string)
    ensures Toggled(Toggled(files, id), id) == files
    decreases |files|
  {
    if files != [] {
      var once := Toggled(files, id);
      assert once[1..] == Toggled(files[1..], id);
      ToggleTwice(files[1..], id);
    }
  }

  /** Toggling one id and then another is the same as the other order. */
  lemma {:induction false} TogglesCommute(files: seq<FileRecord>, a: string, b: string)
    ensures Toggled(Toggled(files, a), b) == Toggled(Toggled(files, b), a)
    decreases |files|
  {
    if files != [] {
      assert Toggled(files, a)[1..] == Toggled(files[1..], a);
      assert Toggled(files, b)[1..] == Toggled(files[1..], b);
      TogglesCommute(files[1..], a, b);
    }
  }
}
