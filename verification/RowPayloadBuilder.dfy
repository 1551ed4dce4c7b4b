/** Building a row's payload in place, in nested objects that share nothing. */
module RowPayloadBuilder {
  import opened Wrappers
  import opened Text
  import opened RowPayload

  datatype Value = Str(text: string) | Nested(object_: JsonObject)

  class JsonObject {
    var entries: map<string, Value>
    ghost var Repr: set<object>

    ghost predicate Valid()
      reads this, Repr
      decreases Repr
      ensures Valid() ==> this in Repr
    {
      && this in Repr
      && (forall k <- entries | entries[k].Nested? ::
            var o := entries[k].object_;
            o in Repr && o.Repr <= Repr && this !in o.Repr && o.Valid())
      && (forall k, l | k in entries && l in entries && k != l && entries[k].Nested? && entries[l].Nested? ::
            entries[k].object_.Repr !! entries[l].object_.Repr)
    }

    // The nested objects as a value.
    ghost function Kids(): map<string, Tree>
      requires Valid()
      reads this, Repr
      decreases Repr
    {
      map k <- entries :: match entries[k] case Str(text) => Leaf(text) case Nested(o) => Object(o.Kids())
    }

    constructor ()
      ensures Valid() && fresh(Repr) && Kids() == map[]
    {
      entries := map[];
      Repr := {this};
    }

    method SetText(k: string, text: string)
      requires Valid()
      modifies this`entries
      ensures Valid() && Kids() == old(Kids())[k := Leaf(text)]
    {
      entries := entries[k := Str(text)];
    }

    method AddObject(k: string)
      requires Valid() && k !in entries
      modifies this
      ensures Valid() && fresh(Repr - old(Repr)) && entries.Keys == old(entries.Keys) + {k}
      ensures entries[k].Nested? && Kids() == old(Kids())[k := Object(map[])]
    {
      var o := new JsonObject();
      entries := entries[k := Nested(o)];
      Repr := Repr + o.Repr;
      ChildAdded(k);
    }

    // A new nested object shows at its key and nowhere else.
    twostate lemma ChildAdded(k: string)
      requires old(Valid()) && k in entries && k !in old(entries) && entries[k].Nested?
      requires entries == old(entries)[k := entries[k]]
      requires var child := entries[k].object_;
               && child.Valid() && fresh(child.Repr) && Repr == old(Repr) + child.Repr
               && forall o <- old(Repr) | o != this :: unchanged(o)
      ensures Valid() && Kids() == old(Kids())[k := Object(entries[k].object_.Kids())]
    {
      forall l <- entries | l != k && entries[l].Nested?
        ensures var o := entries[l].object_;
                o.Valid() && o.Repr == old(o.Repr) && o.Kids() == old(o.Kids())
      {
        var o := entries[l].object_;
        assert l in old(entries) && old(entries)[l] == entries[l];
        assert forall x <- old(o.Repr) :: x in old(Repr) && x != this;
      }
    }

    // A change inside one nested object shows at its key and nowhere else.
    twostate lemma ChildChanged(k: string)
      requires old(Valid()) && k in old(entries) && old(entries)[k].Nested?
      requires entries == old(entries)
      requires var child := entries[k].object_;
               && child.Valid() && fresh(child.Repr - old(child.Repr)) && Repr == old(Repr) + child.Repr
               && forall o <- old(Repr) | o !in old(child.Repr) && o != this :: unchanged(o)
      ensures Valid() && Kids() == old(Kids())[k := Object(entries[k].object_.Kids())]
    {
      var child := entries[k].object_;
      forall l <- entries | l != k && entries[l].Nested?
        ensures var o := entries[l].object_;
                o.Valid() && o.Repr == old(o.Repr) && o.Kids() == old(o.Kids())
      {
        var o := entries[l].object_;
        assert old(o.Repr) !! old(child.Repr);
        assert forall x <- old(o.Repr) :: x in old(Repr) && x != this && x !in old(child.Repr);
      }
    }

    // Walk down the path, adding objects on the way, and write the text at its end.
    method Put(path: seq<string>, text: string) returns (ok: bool)
      requires Valid() && path != []
      modifies Repr
      ensures ok == Insert(old(Kids()), path, text).Some?
      ensures ok ==> Valid() && fresh(Repr - old(Repr)) && Kids() == Insert(old(Kids()), path, text).value
      decreases |path|, 1
    {
      var k := path[0];
      if |path| == 1 {
        SetText(k, text);
        return true;
      }
      if k !in entries {
        AddObject(k);
      }
      ok := PutBelow(k, path, text);
    }

    method PutBelow(k: string, path: seq<string>, text: string) returns (ok: bool)
      requires Valid() && |path| > 1 && k == path[0] && k in entries
      modifies Repr
      ensures ok == Insert(old(Kids()), path, text).Some?
      ensures ok ==> Valid() && fresh(Repr - old(Repr)) && Kids() == Insert(old(Kids()), path, text).value
      decreases |path|, 0
    {
      if entries[k].Str? {
        return false;
      }
      var child := entries[k].object_;
      ok := child.Put(path[1..], text);
      if ok {
        Repr := Repr + child.Repr;
        ChildChanged(k);
      }
    }
  }

  // Build the payload of one row: the row reference first, then each header's
  // cell. The result is None when a header runs into a string and panics.
  method BuildRowPayload(headers: seq<string>, row: seq<string>, rowNum: nat) returns (payload: Option<JsonObject>)
    ensures payload.Some? <==> Build(Writes(headers, row, rowNum)).Some?
    ensures payload.Some? ==>
              fresh(payload.value) && payload.value.Valid()
              && payload.value.Kids() == Build(Writes(headers, row, rowNum)).value
  {
    ghost var writes := Writes(headers, row, rowNum);
    var root := new JsonObject();
    assert writes[..0] == [];
    BuildStep(writes, 0);
    var ok := root.Put([SOURCE_ROW_REF], Decimal(rowNum));
    assert ok;
    for j := 0 to |headers|
      invariant root.Valid() && fresh(root.Repr)
      invariant Build(writes[..j + 1]) == Some(root.Kids())
    {
      var value := "";
      if j < |row| {
        value := row[j];
      }
      BuildStep(writes, j + 1);
      ok := root.Put(Split(headers[j], '.'), value);
      if !ok {
        BuildStaysNone(writes, j + 2);
        return None;
      }
    }
    assert writes[..|headers| + 1] == writes;
    payload := Some(root);
  }

  lemma BuildStep(writes: seq<Write>, n: nat)
    requires n < |writes| && forall i :: 0 <= i < |writes| ==> writes[i].path != []
    requires Build(writes[..n]).Some?
    ensures Build(writes[..n + 1]) == Insert(Build(writes[..n]).value, writes[n].path, writes[n].text)
  {
    assert writes[..n + 1][..n] == writes[..n];
  }

  lemma {:induction false} BuildStaysNone(writes: seq<Write>, n: nat)
    requires n <= |writes| && forall i :: 0 <= i < |writes| ==> writes[i].path != []
    requires Build(writes[..n]).None?
    ensures Build(writes).None?
    decreases |writes| - n
  {
    if n < |writes| {
      assert writes[..n + 1][..n] == writes[..n];
      BuildStaysNone(writes, n + 1);
    } else {
      assert writes[..n] == writes;
    }
  }
}
