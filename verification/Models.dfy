/** The Model object: `set` changes its attributes, its `changed` hash and its flags in place. */
module Models {
  import M = ModelState
  import opened ModelTheorems

  class Model {
    const idAttribute: string
    var id: M.Val
    var attributes: M.Attributes
    var changed: map<string, M.Val>
    var previous: M.Attributes
    var changing: bool
    var pending: bool
    ghost var log: seq<M.Event>

    ghost function View(): M.Model
      reads this
    {
      M.Model(idAttribute, id, attributes, changed, previous, changing, pending, log)
    }

    /** A model without attributes. */
    constructor (idAttribute: string)
      ensures View() == M.Model(idAttribute, M.Undefined, map[], map[], map[], false, false, [])
      ensures Idle(View()) && IdRight(View())
    {
      this.idAttribute, id := idAttribute, M.Undefined;
      attributes, changed, previous, changing, pending := map[], map[], map[], false, false;
      log := [];
    }

    /** Assigns one attribute; whether that changes it. */
    method AssignEntry(e: M.Entry, unset: bool) returns (differs: bool)
      modifies this`attributes, this`changed
      ensures View() == M.AssignOne(old(View()), e, unset)
      ensures differs == (M.Get(old(attributes), e.name) != e.val)
    {
      differs := M.Get(attributes, e.name) != e.val;
      if M.Get(previous, e.name) != e.val {
        changed := changed[e.name := e.val];
      } else {
        changed := changed - {e.name};
      }
      attributes := if unset then attributes - {e.name} else attributes[e.name := e.val];
    }

    /** Assigns the entries in their order; the names of those that change. */
    method Assign(attrs: seq<M.Entry>, unset: bool) returns (changes: seq<string>)
      modifies this`attributes, this`changed
      ensures View() == M.AssignAll(old(View()), attrs, unset)
      ensures changes == M.Changes(old(attributes), attrs, unset)
    {
      hide M.AssignOne;
      changes := [];
      var i := 0;
      while i < |attrs|
        invariant 0 <= i <= |attrs| && View() == M.AssignAll(old(View()), attrs[..i], unset)
        invariant changes == M.Changes(old(attributes), attrs[..i], unset)
      {
        assert attrs[..i + 1][..i] == attrs[..i];
        AssignAllAttributes(old(View()), attrs[..i], unset);
        var differs := AssignEntry(attrs[i], unset);
        if differs {
          changes := changes + [attrs[i].name];
        }
        i := i + 1;
      }
      assert attrs[..i] == attrs;
    }

    method Trigger(ghost e: M.Event, reactions: seq<M.Reaction>, k: nat)
      modifies this
      ensures View() == M.React(M.Fired(old(View()), e), reactions, k)
      decreases reactions, 0
    {
      log := log + [e];
      if k < |reactions| {
        var i := 0;
        ghost var start := View();
        var calls := reactions[k].calls;
        while i < |calls|
          invariant 0 <= i <= |calls| && M.SetAll(View(), calls[i..]) == M.SetAll(start, calls)
        {
          assert calls[i..][1..] == calls[i + 1..];
          var _ := Set(calls[i]);
          i := i + 1;
        }
      }
    }

    /** The assigning part of `set`. */
    method Begin(call: M.Call) returns (changes: seq<string>)
      modifies this
      ensures View() == M.AssignedBy(old(View()), call)
      ensures changes == M.Changes(old(attributes), call.attrs, call.unset)
    {
      hide M.AssignAll, M.Changes;
      if !changing {
        previous := attributes;
        changed := map[];
      }
      changing := true;
      var newId := M.LastOf(call.attrs, idAttribute);
      if newId.Some? {
        id := newId.value;
      }
      ghost var begun := M.WithId(M.Begun(old(View())), call.attrs);
      assert View() == begun;
      changes := Assign(call.attrs, call.unset);
      AssignAllAttributes(begun, call.attrs, call.unset);
      log := log + [M.Assigned(call.attrs, call.unset, call.silent, changes)];
      if !call.silent && changes != [] {
        pending := true;
      }
    }

    method TellChanges(changes: seq<string>, reactions: seq<M.Reaction>)
      modifies this
      ensures View() == M.Tell(old(View()), changes, reactions, 0)
      decreases reactions, 1
    {
      hide M.React, M.Fired;
      var i := 0;
      while i < |changes|
        invariant 0 <= i <= |changes| && M.Tell(View(), changes, reactions, i) == M.Tell(old(View()), changes,
            reactions, 0)
      {
        Trigger(M.AttrChange(changes[i]), reactions, i);
        i := i + 1;
      }
    }

    method SettleAll(reactions: seq<M.Reaction>, from: nat)
      modifies this
      ensures View() == M.Settle(old(View()), reactions, from)
      decreases reactions, 1
    {
      var k := from;
      while pending
        invariant from <= k && M.Settle(View(), reactions, k) == M.Settle(old(View()), reactions, from)
        decreases if k < |reactions| then |reactions| - k + 1 else if pending then 1 else 0
      {
        pending := false;
        Trigger(M.Change, reactions, k);
        k := k + 1;
      }
    }

    /** `set`: false if the validation fails. */
    method Set(call: M.Call) returns (ok: bool)
      modifies this
      ensures View() == M.Set(old(View()), call) && ok == call.valid
      decreases call
    {
      hide M.AssignedBy, M.Tell, M.Settle, M.Changes;
      if !call.valid {
        return false;
      }
      var nested := changing;
      var changes := Begin(call);
      if !call.silent {
        TellChanges(changes, call.reactions);
      }
      if nested {
        return true;
      }
      if !call.silent {
        SettleAll(call.reactions, |changes|);
      }
      pending := false;
      changing := false;
      return true;
    }
  }
}
