/** The layout of a whole program. */
module ProgramLayout {
  import opened Regint
  import opened Regparse
  import opened Regcomp
  import opened Machine
  import opened Layout
  import opened CodeLayout
  import opened Tables
  import opened ProgramCorrect

  /** Every address in a compiled program lands on an instruction, every empty check is followed by
      the instruction that closes its loop, and only counters outside all loops use the table. */
  lemma WholeProgram(n: Node, ml: bool, cfg: Cfg)
    requires Formed(n) && Marked(n, false)
    ensures ProgOk(Image(ProgramOf(n, ml, cfg), cfg)) && !ProgramOf(n, ml, cfg).rec
  {
    WholeImage(Image(ProgramOf(n, ml, cfg), cfg), n, ml);
  }

  /** That does not depend on what the machine notes. */
  lemma WholeImage(g: Image, n: Node, ml: bool)
    requires Formed(n) && Marked(n, false) && g.prog == ProgramOf(n, ml, g.cfg).(rec := g.prog.rec)
    ensures ProgOk(g)
  {
    hide Formed, Marked, CompileTree, CompileLength, Frag;
    var r := CompileTree(n, ml, g.cfg, NOTHING);
    var r' := Add(r, OpEnd, SIZE_OPCODE);
    PlacedDown(g, r, r');
    TreeFrag(g, n, ml, NOTHING, false);
    PlainFrag(g, r, OpEnd, SIZE_OPCODE, |r.ranges|, false);
    FragSeq(g, 0, |r.code|, |r'.code|, 0, |r.ranges|, |r.ranges|, false);
  }
}
