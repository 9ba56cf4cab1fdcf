/** The plugin settings: the ordered marker list the command cycles through,
    and the edits the settings tab makes to it. */
module Settings {
  import opened Splicing
  import Checkbox

  /** The list used when no stored value overrides it. */
  const DefaultCheckboxChars: seq<string> := [" ", "/", "x", "-", ">", "<"]

  /** The default list is a true cycle: six distinct single code units. */
  lemma DefaultIsWellFormedCycle()
    ensures Checkbox.WellFormedCycle(DefaultCheckboxChars)
    ensures " " in DefaultCheckboxChars
  {
  }

  /** The settings object, whose marker list the settings tab edits in place.
      The tab stores whatever the user types and checks no index: a valid
      index is its callers' business, stated here as a precondition. */
  class CycleCheckboxSettings {
    var basicCheckboxChars: seq<string>

    constructor ()
      ensures basicCheckboxChars == DefaultCheckboxChars
    {
      basicCheckboxChars := DefaultCheckboxChars;
    }

    /** "Add New Character": `push(' ')`. */
    method AddCharacter()
      modifies this
      ensures |basicCheckboxChars| == |old(basicCheckboxChars)| + 1
      ensures basicCheckboxChars[..|old(basicCheckboxChars)|] == old(basicCheckboxChars)
      ensures basicCheckboxChars[|old(basicCheckboxChars)|] == " "
    {
      basicCheckboxChars := basicCheckboxChars + [" "];
    }

    /** Editing the input of card `index`: the slot takes the typed text, which
        may be empty or longer than one code unit; no other slot changes. */
    method SetCharacter(index: nat, value: string)
      requires index < |basicCheckboxChars|
      modifies this
      ensures |basicCheckboxChars| == |old(basicCheckboxChars)|
      ensures basicCheckboxChars[index] == value
      ensures forall j :: 0 <= j < |basicCheckboxChars| && j != index ==>
        basicCheckboxChars[j] == old(basicCheckboxChars)[j]
    {
      basicCheckboxChars := basicCheckboxChars[index := value];
    }

    /** "Remove" on card `index`: `splice(index, 1)`. */
    method RemoveCharacter(index: nat)
      requires index < |basicCheckboxChars|
      modifies this
      ensures |basicCheckboxChars| == |old(basicCheckboxChars)| - 1
      ensures basicCheckboxChars == Without(old(basicCheckboxChars), index)
      ensures multiset(basicCheckboxChars) + multiset{old(basicCheckboxChars)[index]} ==
        multiset(old(basicCheckboxChars))
    {
      var removed := Splice(basicCheckboxChars, index, 1, []);
      SpliceRemovesOne(basicCheckboxChars, index);
      basicCheckboxChars := removed.0;
    }

    /** Dropping card `draggedIndex` on card `targetIndex`: nothing when they
        are the same card, otherwise the dragged item is spliced out and
        spliced back in at the target. */
    method MoveCharacter(draggedIndex: nat, targetIndex: nat)
      requires draggedIndex < |basicCheckboxChars| && targetIndex < |basicCheckboxChars|
      modifies this
      ensures basicCheckboxChars == Moved(old(basicCheckboxChars), draggedIndex, targetIndex)
      ensures multiset(basicCheckboxChars) == multiset(old(basicCheckboxChars))
      ensures basicCheckboxChars[targetIndex] == old(basicCheckboxChars)[draggedIndex]
      ensures Without(basicCheckboxChars, targetIndex) == Without(old(basicCheckboxChars), draggedIndex)
      ensures draggedIndex == targetIndex ==> basicCheckboxChars == old(basicCheckboxChars)
    {
      MovedProperties(basicCheckboxChars, draggedIndex, targetIndex);
      if draggedIndex == targetIndex {
        return;
      }
      var removed := Splice(basicCheckboxChars, draggedIndex, 1, []);
      var movedItem := removed.1[0];
      var inserted := Splice(removed.0, targetIndex, 0, [movedItem]);
      MoveBySplice(basicCheckboxChars, draggedIndex, targetIndex);
      basicCheckboxChars := inserted.0;
    }
  }
}
