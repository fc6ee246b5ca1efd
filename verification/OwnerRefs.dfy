/** Editing the owner references of an object. Two references are the same owner if their API versions parse to
    the same group and kind and name agree; a reference whose API version does not parse is the same as none, not
    even itself. The edits work in place on the backing array of a slice. */
module OwnerRefs {
  import opened Base

  datatype OwnerReference = OwnerReference(apiVersion: string, kind: string, name: string, uid: string, flags: int)

  /** The group of an API version, or None if it does not parse. */
  type Parser = string -> Option<string>

  datatype Owner = Owner(group: string, kind: string, name: string)

  /** The owner a reference denotes, if its API version parses. */
  function OwnerOf(parse: Parser, r: OwnerReference): Option<Owner> {
    match parse(r.apiVersion)
    case None => None
    case Some(group) => Some(Owner(group, r.kind, r.name))
  }

  predicate ReferSameObject(parse: Parser, a: OwnerReference, b: OwnerReference) {
    if parse(a.apiVersion).None? then false
    else if parse(b.apiVersion).None? then false
    else parse(a.apiVersion).value == parse(b.apiVersion).value && a.kind == b.kind && a.name == b.name
  }

  /** It is a partial equivalence: equality of owners, where there is one. */
  lemma SameObjectIsSameOwner(parse: Parser, a: OwnerReference, b: OwnerReference)
    ensures ReferSameObject(parse, a, b) <==> OwnerOf(parse, a).Some? && OwnerOf(parse, a) == OwnerOf(parse, b)
    ensures OwnerOf(parse, a).Some? && OwnerOf(parse, a) == OwnerOf(parse, b) <==>
              && parse(a.apiVersion).Some? && parse(a.apiVersion) == parse(b.apiVersion)
              && a.kind == b.kind && a.name == b.name
  {
  }

  // ----- The edits as functions of lists -----

  /** The first index at which the owner of `ref` is referred to, or -1. */
  function IndexOf(parse: Parser, refs: seq<OwnerReference>, ref: OwnerReference): (idx: int)
    ensures -1 <= idx < |refs|
    ensures idx >= 0 ==> ReferSameObject(parse, refs[idx], ref)
    ensures forall i :: 0 <= i < (if idx < 0 then |refs| else idx) ==> !ReferSameObject(parse, refs[i], ref)
  {
    if refs == [] then -1
    else if ReferSameObject(parse, refs[0], ref) then 0
    else var rest := IndexOf(parse, refs[1..], ref); if rest < 0 then -1 else rest + 1
  }

  predicate Has(parse: Parser, refs: seq<OwnerReference>, ref: OwnerReference) {
    IndexOf(parse, refs, ref) > -1
  }

  function Ensured(parse: Parser, refs: seq<OwnerReference>, ref: OwnerReference): seq<OwnerReference> {
    var idx := IndexOf(parse, refs, ref);
    if idx < 0 then refs + [ref] else refs[idx := ref]
  }

  function Removed(parse: Parser, refs: seq<OwnerReference>, ref: OwnerReference): seq<OwnerReference> {
    var idx := IndexOf(parse, refs, ref);
    if idx < 0 then refs else refs[..idx] + refs[idx+1..]
  }

  /** The first index that carries the UID, or -1. */
  function IndexOfUID(refs: seq<OwnerReference>, uid: string): (idx: int)
    ensures -1 <= idx < |refs|
    ensures idx >= 0 ==> refs[idx].uid == uid
    ensures forall i :: 0 <= i < (if idx < 0 then |refs| else idx) ==> refs[i].uid != uid
  {
    if refs == [] then -1
    else if refs[0].uid == uid then 0
    else var rest := IndexOfUID(refs[1..], uid); if rest < 0 then -1 else rest + 1
  }

  function Replaced(refs: seq<OwnerReference>, uid: string, target: OwnerReference): seq<OwnerReference> {
    var idx := IndexOfUID(refs, uid);
    if idx < 0 then refs + [target] else refs[idx := target]
  }

  // ----- Lists that name each owner once -----

  predicate Distinct(parse: Parser, refs: seq<OwnerReference>) {
    forall i, j :: 0 <= i < j < |refs| ==> !ReferSameObject(parse, refs[i], refs[j])
  }

  /** What a list means: for each owner the reference to it. References that do not parse mean nothing. */
  function Owners(parse: Parser, refs: seq<OwnerReference>): map<Owner, OwnerReference> {
    if refs == [] then map[] else
      var before, last := Owners(parse, refs[..|refs|-1]), refs[|refs|-1];
      match OwnerOf(parse, last)
      case None => before
      case Some(owner) => before[owner := last]
  }

  datatype Edit = Ensure(ref: OwnerReference) | Remove(ref: OwnerReference)

  function Edited(parse: Parser, refs: seq<OwnerReference>, edits: seq<Edit>): seq<OwnerReference> {
    if edits == [] then refs else
      var before := Edited(parse, refs, edits[..|edits|-1]);
      match edits[|edits|-1]
      case Ensure(ref) => Ensured(parse, before, ref)
      case Remove(ref) => Removed(parse, before, ref)
  }

  /** The same edits on the meaning: updates and deletions of a map. */
  function EditedOwners(parse: Parser, owners: map<Owner, OwnerReference>, edits: seq<Edit>)
    : map<Owner, OwnerReference> {
    if edits == [] then owners else
      var before := EditedOwners(parse, owners, edits[..|edits|-1]);
      var edit := edits[|edits|-1];
      match OwnerOf(parse, edit.ref)
      case None => before
      case Some(owner) => if edit.Ensure? then before[owner := edit.ref] else before - {owner}
  }

  /** Nobody in the list refers to `owner`. */
  predicate Unnamed(parse: Parser, refs: seq<OwnerReference>, owner: Owner) {
    forall i :: 0 <= i < |refs| ==> OwnerOf(parse, refs[i]) != Some(owner)
  }

  lemma {:induction false} UnnamedHasNoReference(parse: Parser, refs: seq<OwnerReference>, owner: Owner)
    requires Unnamed(parse, refs, owner)
    ensures owner !in Owners(parse, refs)
  {
    if refs == [] {
    } else {
      UnnamedHasNoReference(parse, refs[..|refs|-1], owner);
    }
  }

  lemma AppendingAdds(parse: Parser, refs: seq<OwnerReference>, ref: OwnerReference)
    ensures Owners(parse, refs + [ref]) ==
              match OwnerOf(parse, ref)
              case None => Owners(parse, refs)
              case Some(owner) => Owners(parse, refs)[owner := ref]
  {
    assert (refs + [ref])[..|refs|] == refs;
  }

  /** Of two parts of a list the later one decides. */
  lemma {:induction false} OwnersOfParts(parse: Parser, a: seq<OwnerReference>, b: seq<OwnerReference>)
    ensures Owners(parse, a + b) == Owners(parse, a) + Owners(parse, b)
  {
    if b == [] {
      assert a + b == a;
    } else {
      var n := |b| - 1;
      assert a + b == (a + b[..n]) + [b[n]];
      OwnersOfParts(parse, a, b[..n]);
      AppendingAdds(parse, a + b[..n], b[n]);
    }
  }

  lemma OverwritingUpdates(parse: Parser, refs: seq<OwnerReference>, at: nat, ref: OwnerReference, owner: Owner)
    requires at < |refs| && OwnerOf(parse, refs[at]) == OwnerOf(parse, ref) == Some(owner)
    requires Unnamed(parse, refs[at+1..], owner)
    ensures Owners(parse, refs[at := ref]) == Owners(parse, refs)[owner := ref]
  {
    var left, right := refs[..at], refs[at+1..];
    assert refs == (left + [refs[at]]) + right && refs[at := ref] == (left + [ref]) + right;
    OwnersOfParts(parse, left + [refs[at]], right);
    OwnersOfParts(parse, left + [ref], right);
    AppendingAdds(parse, left, refs[at]);
    AppendingAdds(parse, left, ref);
    UnnamedHasNoReference(parse, right, owner);
  }

  lemma DeletedInBetween(
    a: map<Owner, OwnerReference>, b: map<Owner, OwnerReference>, owner: Owner, ref: OwnerReference)
    requires owner !in a && owner !in b
    ensures (a[owner := ref] + b) - {owner} == a + b
  {
  }

  lemma CuttingDeletes(parse: Parser, refs: seq<OwnerReference>, at: nat, owner: Owner)
    requires at < |refs| && OwnerOf(parse, refs[at]) == Some(owner)
    requires Unnamed(parse, refs[..at], owner) && Unnamed(parse, refs[at+1..], owner)
    ensures Owners(parse, refs[..at] + refs[at+1..]) == Owners(parse, refs) - {owner}
  {
    var left, right := refs[..at], refs[at+1..];
    assert refs == (left + [refs[at]]) + right;
    OwnersOfParts(parse, left + [refs[at]], right);
    OwnersOfParts(parse, left, right);
    AppendingAdds(parse, left, refs[at]);
    UnnamedHasNoReference(parse, left, owner);
    UnnamedHasNoReference(parse, right, owner);
    DeletedInBetween(Owners(parse, left), Owners(parse, right), owner, refs[at]);
  }

  /** In a list that names each owner once, nothing else names the owner at `at`. */
  lemma NamedOnlyThere(parse: Parser, refs: seq<OwnerReference>, at: nat, owner: Owner)
    requires Distinct(parse, refs) && at < |refs| && OwnerOf(parse, refs[at]) == Some(owner)
    ensures Unnamed(parse, refs[..at], owner) && Unnamed(parse, refs[at+1..], owner)
  {
    forall i | 0 <= i < at ensures OwnerOf(parse, refs[i]) != Some(owner) {
      assert !ReferSameObject(parse, refs[i], refs[at]);
    }
    var tail := refs[at+1..];
    forall i | 0 <= i < |tail| ensures OwnerOf(parse, tail[i]) != Some(owner) {
      assert !ReferSameObject(parse, refs[at], refs[at+1+i]);
    }
  }

  lemma EnsureKeepsDistinct(parse: Parser, refs: seq<OwnerReference>, ref: OwnerReference)
    requires Distinct(parse, refs)
    ensures Distinct(parse, Ensured(parse, refs, ref))
  {
  }

  lemma EnsureUpdatesOwners(parse: Parser, refs: seq<OwnerReference>, ref: OwnerReference)
    requires Distinct(parse, refs)
    ensures Owners(parse, Ensured(parse, refs, ref)) ==
              match OwnerOf(parse, ref)
              case None => Owners(parse, refs)
              case Some(owner) => Owners(parse, refs)[owner := ref]
  {
    var idx := IndexOf(parse, refs, ref);
    if idx < 0 {
      AppendingAdds(parse, refs, ref);
    } else {
      NamedOnlyThere(parse, refs, idx, OwnerOf(parse, ref).value);
      OverwritingUpdates(parse, refs, idx, ref, OwnerOf(parse, ref).value);
    }
  }

  lemma RemoveKeepsDistinct(parse: Parser, refs: seq<OwnerReference>, ref: OwnerReference)
    requires Distinct(parse, refs)
    ensures Distinct(parse, Removed(parse, refs, ref))
  {
  }

  lemma NobodyNames(parse: Parser, refs: seq<OwnerReference>, ref: OwnerReference)
    requires IndexOf(parse, refs, ref) < 0 && OwnerOf(parse, ref).Some?
    ensures Unnamed(parse, refs, OwnerOf(parse, ref).value)
  {
    forall i | 0 <= i < |refs| ensures OwnerOf(parse, refs[i]) != OwnerOf(parse, ref) {
      assert !ReferSameObject(parse, refs[i], ref);
      SameObjectIsSameOwner(parse, refs[i], ref);
    }
  }

  lemma RemoveDeletesOwner(parse: Parser, refs: seq<OwnerReference>, ref: OwnerReference)
    requires Distinct(parse, refs)
    ensures Owners(parse, Removed(parse, refs, ref)) ==
              match OwnerOf(parse, ref)
              case None => Owners(parse, refs)
              case Some(owner) => Owners(parse, refs) - {owner}
  {
    var idx := IndexOf(parse, refs, ref);
    if idx >= 0 {
      NamedOnlyThere(parse, refs, idx, OwnerOf(parse, ref).value);
      CuttingDeletes(parse, refs, idx, OwnerOf(parse, ref).value);
    } else if OwnerOf(parse, ref).Some? {
      NobodyNames(parse, refs, ref);
      UnnamedHasNoReference(parse, refs, OwnerOf(parse, ref).value);
    }
  }

  /** Any sequence of edits keeps a list that names each owner once such a list, and acts on its meaning as updates
      and deletions of a map: the last edit for an owner decides, and edits for one owner do not affect another. */
  lemma {:induction false} EditsActOnOwners(parse: Parser, refs: seq<OwnerReference>, edits: seq<Edit>)
    requires Distinct(parse, refs)
    ensures Distinct(parse, Edited(parse, refs, edits))
    ensures Owners(parse, Edited(parse, refs, edits)) == EditedOwners(parse, Owners(parse, refs), edits)
  {
    if edits == [] {
    } else {
      EditsActOnOwners(parse, refs, edits[..|edits|-1]);
      var before := Edited(parse, refs, edits[..|edits|-1]);
      match edits[|edits|-1]
      case Ensure(ref) =>
        EnsureKeepsDistinct(parse, before, ref);
        EnsureUpdatesOwners(parse, before, ref);
      case Remove(ref) =>
        RemoveKeepsDistinct(parse, before, ref);
        RemoveDeletesOwner(parse, before, ref);
    }
  }

  /** Ensuring twice is ensuring once exactly when the reference parses; one that does not is added each time. */
  lemma EnsureIsIdempotentIffParses(parse: Parser, refs: seq<OwnerReference>, ref: OwnerReference)
    ensures var once := Ensured(parse, refs, ref);
            Ensured(parse, once, ref) == once <==> parse(ref.apiVersion).Some?
  {
    var once := Ensured(parse, refs, ref);
    if parse(ref.apiVersion).Some? {
      var at := if IndexOf(parse, refs, ref) < 0 then |refs| else IndexOf(parse, refs, ref);
      assert once[at] == ref && ReferSameObject(parse, once[at], ref);
      assert IndexOf(parse, once, ref) == at;
    } else {
      assert |Ensured(parse, once, ref)| == |once| + 1;
    }
  }

  /** After ensuring a reference that parses the list has it, and no other reference changed place or value. */
  lemma EnsurePutsTheReference(parse: Parser, refs: seq<OwnerReference>, ref: OwnerReference)
    requires parse(ref.apiVersion).Some?
    ensures var after := Ensured(parse, refs, ref);
            && ref in after && Has(parse, after, ref)
            && |after| == |refs| + (if Has(parse, refs, ref) then 0 else 1)
            && (forall i :: 0 <= i < |refs| && !ReferSameObject(parse, refs[i], ref) ==> after[i] == refs[i])
  {
    var after := Ensured(parse, refs, ref);
    var at := if IndexOf(parse, refs, ref) < 0 then |refs| else IndexOf(parse, refs, ref);
    assert after[at] == ref && ReferSameObject(parse, after[at], ref);
  }

  /** Removing what was just added restores the list. */
  lemma RemoveUndoesEnsure(parse: Parser, refs: seq<OwnerReference>, ref: OwnerReference)
    requires parse(ref.apiVersion).Some? && !Has(parse, refs, ref)
    ensures Removed(parse, Ensured(parse, refs, ref), ref) == refs
  {
    var after := Ensured(parse, refs, ref);
    assert after[|refs|] == ref && ReferSameObject(parse, after[|refs|], ref);
    assert IndexOf(parse, after, ref) == |refs|;
    assert after[..|refs|] == refs && after[|refs|+1..] == [];
  }

  /** Removing takes away the first occurrence only: the owner is still there exactly if it was named twice, so
      never if the list names each owner once. */
  lemma StillThereIffNamedTwice(parse: Parser, refs: seq<OwnerReference>, ref: OwnerReference)
    ensures Has(parse, Removed(parse, refs, ref), ref) <==>
              exists i, j :: 0 <= i < j < |refs|
                && ReferSameObject(parse, refs[i], ref) && ReferSameObject(parse, refs[j], ref)
    ensures Distinct(parse, refs) ==> !Has(parse, Removed(parse, refs, ref), ref)
  {
    var idx := IndexOf(parse, refs, ref);
    var after := Removed(parse, refs, ref);
    if idx >= 0 {
      assert forall i :: 0 <= i < |after| ==> after[i] == if i < idx then refs[i] else refs[i+1];
      var k := IndexOf(parse, after, ref);
      if k >= 0 {
        assert idx <= k && ReferSameObject(parse, refs[k+1], ref);
      } else {
        forall j | idx < j < |refs| ensures !ReferSameObject(parse, refs[j], ref) {
          assert after[j-1] == refs[j];
        }
      }
    }
  }

  /** Removing takes away the first reference to the owner, if there is one, and moves those behind it up. */
  lemma RemoveTakesTheFirst(parse: Parser, refs: seq<OwnerReference>, ref: OwnerReference, at: nat)
    requires at <= |refs| && (at < |refs| ==> ReferSameObject(parse, refs[at], ref))
    requires forall i :: 0 <= i < at ==> !ReferSameObject(parse, refs[i], ref)
    ensures var after := Removed(parse, refs, ref);
            && |after| == (if at < |refs| then |refs| - 1 else |refs|)
            && (forall i :: 0 <= i < |after| ==> after[i] == refs[if i < at then i else i + 1])
  {
    assert IndexOf(parse, refs, ref) == if at < |refs| then at else -1;
  }

  /** Replacing puts the target itself at the first reference that carries the UID, or at the end if none does; every
      other reference is where it was. */
  lemma ReplacePutsTheTarget(refs: seq<OwnerReference>, uid: string, target: OwnerReference, at: nat)
    requires at <= |refs| && (at < |refs| ==> refs[at].uid == uid)
    requires forall i :: 0 <= i < at ==> refs[i].uid != uid
    ensures var after := Replaced(refs, uid, target);
            && |after| == (if at < |refs| then |refs| else |refs| + 1)
            && after[at] == target
            && (forall i :: 0 <= i < |refs| && i != at ==> after[i] == refs[i])
  {
    assert IndexOfUID(refs, uid) == if at < |refs| then at else -1;
  }

  /** Replacing by UID keeps a list that names each owner once such a list exactly when the target is not named
      elsewhere than at the place it goes to. */
  lemma ReplaceKeepsDistinctIffTargetNotElsewhere(
    parse: Parser, refs: seq<OwnerReference>, uid: string, target: OwnerReference)
    requires Distinct(parse, refs)
    ensures Distinct(parse, Replaced(refs, uid, target)) <==>
              forall i :: 0 <= i < |refs| && i != IndexOfUID(refs, uid) ==> !ReferSameObject(parse, refs[i], target)
  {
    var idx := IndexOfUID(refs, uid);
    var after := Replaced(refs, uid, target);
    var at := if idx < 0 then |refs| else idx;
    assert after[at] == target;
    assert forall i :: 0 <= i < |refs| && i != idx ==> after[i] == refs[i];
    forall i | Distinct(parse, after) && 0 <= i < |refs| && i != idx
      ensures !ReferSameObject(parse, refs[i], target)
    {
      SameObjectIsSameOwner(parse, after[i], after[at]);
      assert i < at ==> !ReferSameObject(parse, after[i], after[at]);
      assert at < i ==> !ReferSameObject(parse, after[at], after[i]);
    }
  }

  // ----- The edits on slices -----

  /** A slice that starts at the beginning of its backing array; the capacity is the length of the array. */
  datatype Slice = Slice(backing: array<OwnerReference>, len: nat)
  {
    ghost predicate Valid() {
      len <= backing.Length
    }

    ghost function Contents(): seq<OwnerReference>
      requires Valid()
      reads backing
    {
      backing[..len]
    }
  }

  /** Go's `append` of one element: in place while there is capacity, else in a larger array. */
  method Append(s: Slice, ref: OwnerReference, growth: nat) returns (r: Slice)
    requires s.Valid()
    modifies s.backing
    ensures r.Valid() && r.Contents() == old(s.Contents()) + [ref]
    ensures s.Contents() == old(s.Contents())
    ensures if s.len < s.backing.Length then r.backing == s.backing else fresh(r.backing)
  {
    if s.len < s.backing.Length {
      s.backing[s.len] := ref;
      r := Slice(s.backing, s.len + 1);
    } else {
      var larger := new OwnerReference[s.len + 1 + growth](_ => ref);
      var i := 0;
      while i < s.len
        invariant 0 <= i <= s.len
        invariant larger[..i] == s.backing[..i]
        invariant forall j :: i <= j < larger.Length ==> larger[j] == ref
        invariant s.Contents() == old(s.Contents())
      {
        larger[i] := s.backing[i];
        i := i + 1;
      }
      r := Slice(larger, s.len + 1);
    }
  }

  method IndexOwnerRef(parse: Parser, s: Slice, ref: OwnerReference) returns (idx: int)
    requires s.Valid()
    ensures idx == IndexOf(parse, s.Contents(), ref)
  {
    var i := 0;
    while i < s.len
      invariant 0 <= i <= s.len
      invariant forall j :: 0 <= j < i ==> !ReferSameObject(parse, s.backing[j], ref)
    {
      if ReferSameObject(parse, s.backing[i], ref) {
        assert s.Contents()[i] == s.backing[i];
        return i;
      }
      i := i + 1;
    }
    return -1;
  }

  /** `EnsureOwnerRef`; a reference that is there is overwritten in the caller's array. */
  method EnsureOwnerRef(parse: Parser, s: Slice, ref: OwnerReference, growth: nat) returns (r: Slice)
    requires s.Valid()
    modifies s.backing
    ensures r.Valid() && r.Contents() == Ensured(parse, old(s.Contents()), ref)
    ensures s.Contents() == if old(Has(parse, s.Contents(), ref)) then r.Contents() else old(s.Contents())
  {
    var idx := IndexOwnerRef(parse, s, ref);
    if idx == -1 {
      r := Append(s, ref, growth);
    } else {
      s.backing[idx] := ref;
      r := s;
    }
  }

  /** `ReplaceOwnerRef`; a reference that carries the UID is overwritten in the caller's array. */
  method ReplaceOwnerRef(s: Slice, uid: string, target: OwnerReference, growth: nat) returns (r: Slice)
    requires s.Valid()
    modifies s.backing
    ensures r.Valid() && r.Contents() == Replaced(old(s.Contents()), uid, target)
    ensures s.Contents() == if IndexOfUID(old(s.Contents()), uid) >= 0 then r.Contents() else old(s.Contents())
  {
    var found := -1;
    var i := 0;
    while i < s.len && found < 0
      invariant 0 <= i <= s.len && -1 <= found
      invariant found < 0 ==> s.Contents() == old(s.Contents()) && forall j :: 0 <= j < i ==> s.Contents()[j].uid != uid
      invariant found >= 0 ==>
        found == IndexOfUID(old(s.Contents()), uid) && s.Contents() == old(s.Contents())[found := target]
      decreases s.len - i
    {
      if s.backing[i].uid == uid {
        assert s.Contents()[i] == s.backing[i];
        found := i;
        s.backing[i] := target;
      }
      i := i + 1;
    }
    r := s;
    if found < 0 {
      r := Append(s, target, growth);
    }
  }

  /** Moves `a[at+1..len]` down by one place. */
  method ShiftDown(a: array<OwnerReference>, at: nat, len: nat)
    requires at < len <= a.Length
    modifies a
    ensures var was := old(a[..len]); a[..len] == was[..at] + was[at+1..] + [was[len-1]]
  {
    ghost var was := a[..len];
    var i := at + 1;
    while i < len
      invariant at < i <= len
      invariant forall j :: 0 <= j < at || i - 1 <= j < len ==> a[j] == was[j]
      invariant forall j :: at <= j < i - 1 ==> a[j] == was[j+1]
    {
      a[i-1] := a[i];
      i := i + 1;
    }
    assert a[..len] == was[..at] + was[at+1..] + [was[len-1]];
  }

  /** `RemoveOwnerRef` shifts the tail down in the caller's array: the slice that was passed in then shows the new
      list followed by its old last reference once more. */
  method RemoveOwnerRef(parse: Parser, s: Slice, ref: OwnerReference) returns (r: Slice)
    requires s.Valid()
    modifies s.backing
    ensures r.Valid() && r.backing == s.backing
    ensures r.Contents() == Removed(parse, old(s.Contents()), ref)
    ensures var was := old(s.Contents());
            s.Contents() == r.Contents() + if Has(parse, was, ref) then [was[s.len-1]] else []
  {
    var idx := IndexOwnerRef(parse, s, ref);
    if idx == -1 {
      return s;
    }
    ghost var was := s.Contents();
    ShiftDown(s.backing, idx, s.len);
    r := Slice(s.backing, s.len - 1);
    assert s.Contents() == Removed(parse, was, ref) + [was[s.len-1]];
    assert r.Contents() == s.Contents()[..s.len-1] == Removed(parse, was, ref);
  }
}
