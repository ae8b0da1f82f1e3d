/**
 Folding queued edits of one feature into one: foldQueuedEdits and foldQueuedChain of
 packages/shared-types/src/queue-fold.ts:72-157. What the portal makes of an edit is in
 apps/portal-api/src/data-layer/features.service.ts:1267-1387 and 1433-1500 and
 apps/portal-api/src/engine/data-layer.ts:1113-1230: an insert of a live feature writes nothing, an
 update merges over what is there and is refused when nothing is. Null properties are the empty map.
 */
module QueueFold {
  import opened Prelude
  import opened QueueRules

  datatype FoldResult = Replace(edit: Edit) | Annihilated

  function FoldQueuedEdits(prior: Edit, next: Edit): FoldResult {
    var merged := prior.properties + next.properties;
    var geometry := if next.geometry.Some? then next.geometry else prior.geometry;
    if prior.op.Insert? && next.op.Delete? then Annihilated
    else if prior.op.Insert? then Replace(Edit(Insert, geometry, merged))
    else if next.op.Delete? then Replace(Edit(Delete, None, map[]))
    else Replace(Edit(Update, geometry, merged))
  }

  /** Fold the rest of a chain onto `acc`; once it cancels out it stays cancelled. */
  function FoldOnto(acc: Edit, rest: seq<Edit>): FoldResult
    decreases |rest|
  {
    if rest == [] then Replace(acc)
    else
      var folded := FoldQueuedEdits(acc, rest[0]);
      if folded.Annihilated? then Annihilated else FoldOnto(folded.edit, rest[1..])
  }

  function FoldChain(chain: seq<Edit>): FoldResult
    requires chain != []
  {
    FoldOnto(chain[0], chain[1..])
  }

  /** foldQueuedChain; the source throws on an empty chain. */
  method FoldQueuedChain(chain: seq<Edit>) returns (result: FoldResult)
    requires chain != []
    ensures result == FoldChain(chain)
  {
    hide FoldQueuedEdits;
    var acc := chain[0];
    for i := 1 to |chain|
      invariant FoldChain(chain) == FoldOnto(acc, chain[i..])
    {
      assert chain[i..][0] == chain[i] && chain[i..][1..] == chain[i + 1..];
      var folded := FoldQueuedEdits(acc, chain[i]);
      if folded.Annihilated? {
        return folded;
      }
      acc := folded.edit;
    }
    assert chain[|chain|..] == [];
    result := Replace(acc);
  }

  // ---------------------------------------------------------------- what the server makes of an edit

  datatype Feature = Feature(geometry: Option<string>, properties: map<string, Property>)

  type Stored = Option<Feature>

  function Apply(edit: Edit, s: Stored): Stored {
    match edit.op
    case Insert => if s.Some? then s else Some(Feature(edit.geometry, edit.properties))
    case Update =>
      if s.None? then None
      else Some(Feature(if edit.geometry.Some? then edit.geometry else s.value.geometry, s.value.properties + edit.properties))
    case Delete => None
    case UnknownOp(_) => s
  }

  function ApplyAll(edits: seq<Edit>, s: Stored): Stored
    decreases |edits|
  {
    if edits == [] then s else ApplyAll(edits[1..], Apply(edits[0], s))
  }

  function ApplyResult(result: FoldResult, s: Stored): Stored {
    if result.Annihilated? then s else Apply(result.edit, s)
  }

  /** Sending an edit again changes nothing. */
  lemma ApplyIsIdempotent(edit: Edit, s: Stored)
    ensures Apply(edit, Apply(edit, s)) == Apply(edit, s)
  {
    if edit.op.Update? && s.Some? {
      var p := s.value.properties;
      assert p + edit.properties + edit.properties == p + edit.properties;
    }
  }

  predicate Touches(edit: Edit) {
    edit.op.Update? || edit.op.Delete?
  }

  /** The feature already has these answers, and this geometry if one is given. */
  predicate Has(f: Feature, edit: Edit) {
    && (forall name :: name in edit.properties ==> name in f.properties && f.properties[name] == edit.properties[name])
    && (edit.geometry.Some? ==> f.geometry == edit.geometry)
  }

  /** When one request says what two would have said: a capture the server does not have yet, or edits
      of a feature it has, as long as nothing is written after a delete. */
  predicate FoldsFaithfully(prior: Edit, next: Edit, s: Stored) {
    match (prior.op, next.op)
    case (Insert, Delete) => s.None?
    case (Insert, Update) => s.None? || Has(s.value, next)
    case (Delete, Update) => s.None?
    case _ => true
  }

  /** For an update or a delete on top of any edit, folding gives the server what it would have had from
      the two in turn exactly when the fold is faithful. In particular a capture whose request already
      arrived, but whose answer was lost, swallows whatever is folded onto it. */
  lemma FoldIsFaithfulIff(prior: Edit, next: Edit, s: Stored)
    requires (prior.op.Insert? || Touches(prior)) && Touches(next)
    ensures ApplyResult(FoldQueuedEdits(prior, next), s) == Apply(next, Apply(prior, s)) <==> FoldsFaithfully(prior, next, s)
  {
    if prior.op.Update? && next.op.Update? && s.Some? {
      var p := s.value.properties;
      assert p + (prior.properties + next.properties) == p + prior.properties + next.properties;
    }
    if prior.op.Insert? && next.op.Update? && s.Some? {
      HasIsNothingNew(s.value, next);
    }
  }

  lemma HasIsNothingNew(f: Feature, edit: Edit)
    requires edit.op.Update?
    ensures Apply(edit, Some(f)) == Some(f) <==> Has(f, edit)
  {
    var merged := f.properties + edit.properties;
    if Has(f, edit) {
      assert merged == f.properties;
    } else if merged == f.properties {
      assert forall name :: name in edit.properties ==> merged[name] == edit.properties[name];
    }
  }

  /** A chain that a device records: a capture the server has not seen and its edits, or edits of a
      feature that none follows a delete. */
  predicate RecordedChain(chain: seq<Edit>, s: Stored)
    requires chain != []
  {
    && (forall i :: 1 <= i < |chain| ==> Touches(chain[i]))
    && (if chain[0].op.Insert? then s.None?
        else Touches(chain[0]) && forall i, j :: 0 <= i < j < |chain| && chain[i].op.Delete? ==> chain[j].op.Delete?)
  }

  lemma {:induction false} NothingToTouch(edits: seq<Edit>)
    requires forall i :: 0 <= i < |edits| ==> Touches(edits[i])
    ensures ApplyAll(edits, None) == None
    decreases |edits|
  {
    if edits != [] {
      NothingToTouch(edits[1..]);
    }
  }

  lemma FoldedOp(acc: Edit, next: Edit)
    requires (acc.op.Insert? || Touches(acc)) && Touches(next) && FoldQueuedEdits(acc, next).Replace?
    ensures var edit := FoldQueuedEdits(acc, next).edit;
            && (edit.op.Insert? <==> acc.op.Insert?) && (edit.op.Insert? || Touches(edit)) && (edit.op.Delete? ==> next.op.Delete?)
  {
  }

  /** Folding the first two edits of a recorded chain is faithful and leaves a recorded chain. */
  lemma StillRecorded(acc: Edit, rest: seq<Edit>, s: Stored)
    requires rest != [] && RecordedChain([acc] + rest, s)
    ensures (acc.op.Insert? || Touches(acc)) && (forall i :: 0 <= i < |rest| ==> Touches(rest[i])) && FoldsFaithfully(acc, rest[0], s)
    ensures var folded := FoldQueuedEdits(acc, rest[0]);
            folded.Replace? ==> RecordedChain([folded.edit] + rest[1..], s)
  {
    var chain := [acc] + rest;
    assert forall i :: 0 <= i < |rest| ==> rest[i] == chain[i + 1];
    assert chain[0].op.Delete? ==> chain[1].op.Delete?;
    assert FoldsFaithfully(acc, rest[0], s);
    var folded := FoldQueuedEdits(acc, rest[0]);
    if folded.Replace? {
      FoldedOp(acc, rest[0]);
      hide FoldQueuedEdits, FoldsFaithfully;
      var shorter := [folded.edit] + rest[1..];
      assert shorter[0] == folded.edit && forall i :: 1 <= i < |shorter| ==> shorter[i] == chain[i + 1];
      hide Touches;
    }
  }

  /** However long the chain, one request then says what all of them would have said in turn. */
  lemma {:induction false} FoldedChainMeansAll(acc: Edit, rest: seq<Edit>, s: Stored)
    requires RecordedChain([acc] + rest, s)
    ensures ApplyResult(FoldOnto(acc, rest), s) == ApplyAll(rest, Apply(acc, s))
    decreases |rest|
  {
    if rest != [] {
      StillRecorded(acc, rest, s);
      var folded := FoldQueuedEdits(acc, rest[0]);
      FoldIsFaithfulIff(acc, rest[0], s);
      if folded.Annihilated? {
        NothingToTouch(rest[1..]);
      } else {
        hide FoldQueuedEdits, RecordedChain, FoldsFaithfully, Apply;
        FoldedChainMeansAll(folded.edit, rest[1..], s);
      }
    }
  }

  lemma ChainMeansAll(chain: seq<Edit>, s: Stored)
    requires chain != [] && RecordedChain(chain, s)
    ensures ApplyResult(FoldChain(chain), s) == ApplyAll(chain, s)
  {
    assert chain == [chain[0]] + chain[1..];
    FoldedChainMeansAll(chain[0], chain[1..], s);
  }
}
