/** compiler/assembler.py: the label table `assemble` rebuilds from a parsed
    instruction list. */
module Assembler {
  import opened Syntax

  /** `AssemblyUnit(instructions, label_table)`. */
  datatype AssemblyUnit = AssemblyUnit(instructions: seq<Entry>, labelTable: map<string, int>)

  /** `assemble(instructions)`: the nested loop over the instructions and their
      `labels`, writing each label with the current index. */
  method Assemble(instructions: seq<Entry>) returns (unit: AssemblyUnit)
    ensures unit.instructions == instructions
    ensures unit.labelTable == LabelIndex(LabelLists(instructions))
  {
    var labelTable: map<string, int> := map[];
    for idx := 0 to |instructions|
      invariant labelTable == LabelIndex(LabelLists(instructions[..idx]))
    {
      assert LabelLists(instructions[..idx + 1])[..idx] == LabelLists(instructions[..idx]);
      var labels := LabelsOf(instructions[idx]);
      ghost var before := labelTable;
      for j := 0 to |labels|
        invariant labelTable == AddLabels(before, labels[..j], idx)
      {
        assert labels[..j + 1][..j] == labels[..j];
        labelTable := labelTable[labels[j] := idx];
      }
      assert labels[..|labels|] == labels;
    }
    assert instructions[..|instructions|] == instructions;
    return AssemblyUnit(instructions, labelTable);
  }

  /** The table `assemble` builds holds exactly the labels some instruction carries;
      each maps to a valid index of an instruction carrying it, and no later
      instruction carries it (the last carrier wins). Instructions without labels
      contribute nothing. */
  lemma AssembledTable(instructions: seq<Entry>)
    ensures var table := LabelIndex(LabelLists(instructions));
      (forall l :: l in table <==> exists i :: 0 <= i < |instructions| && l in LabelsOf(instructions[i])) &&
      forall l :: l in table ==>
        0 <= table[l] < |instructions| && l in LabelsOf(instructions[table[l]]) &&
        forall j :: table[l] < j < |instructions| ==> l !in LabelsOf(instructions[j])
  {
    var lists := LabelLists(instructions);
    LabelIndexCharacterized(lists);
    forall l ensures Carried(lists, l) <==> exists i :: 0 <= i < |instructions| && l in LabelsOf(instructions[i]) {
      if Carried(lists, l) {
        var i :| 0 <= i < |lists| && l in lists[i];
        assert l in LabelsOf(instructions[i]);
      }
      if exists i :: 0 <= i < |instructions| && l in LabelsOf(instructions[i]) {
        var i :| 0 <= i < |instructions| && l in LabelsOf(instructions[i]);
        assert l in lists[i];
      }
    }
  }
}
