/** NoneConditionBuilder, the builder of the search condition that matches no
    document: the degenerate leaf of the condition-builder hierarchy. */
module NoneConditions {
  import opened Wrappers

  /** A java.lang.Float by its IEEE 754 bits. The builders only carry it. */
  datatype Float32 = Float32(bits: bv32)

  /** The condition that matches no document, with the boost it was built
      with (a null boost is None). What NoneCondition's own constructor does
      with that boost is not part of this model. */
  class NoneCondition {
    const boost: Option<Float32>

    constructor (boost: Option<Float32>)
      ensures this.boost == boost
    {
      this.boost := boost;
    }
  }

  /** The builder. Its only state is the `boost` it inherits from
      ConditionBuilder, which is set from the deserialised input (a Jackson
      property) and starts out null. */
  class NoneConditionBuilder {
    var boost: Option<Float32>

    /** The no-argument constructor sets nothing of its own. */
    constructor ()
      ensures boost == None
    {
      boost := None;
    }

    /** build(): a new condition carrying the current boost. It validates
        nothing, cannot fail, and leaves the builder as it was. */
    method Build() returns (c: NoneCondition)
      ensures fresh(c)
      ensures c.boost == boost
    {
      c := new NoneCondition(boost);
    }
  }

  /** Two builds with a boost change in between give two distinct conditions,
      each with the boost of its moment: nothing is memoised. */
  method RebuildAfterBoostChange(b: NoneConditionBuilder, first: Option<Float32>, second: Option<Float32>)
    returns (c1: NoneCondition, c2: NoneCondition)
    modifies b
    ensures fresh(c1) && fresh(c2) && c1 != c2
    ensures c1.boost == first && c2.boost == second
    ensures b.boost == second
  {
    b.boost := first;
    c1 := b.Build();
    b.boost := second;
    c2 := b.Build();
  }
}
