/**
 * The query-source abstraction the uniqueness and existence validators talk to: a builder
 * that collects `where` conditions and answers `count()`. What a condition selects is the
 * storage's business, so the count is an oracle over the collected conditions.
 */
module QuerySources {
  import opened Php

  datatype Operator = Equal | NotEqual

  /** One `where($field, $operator, $value)` condition. */
  datatype Condition = Condition(field: string, op: Operator, operand: Value)

  class QuerySource {
    var conditions: seq<Condition>
    /** How many records the storage holds that satisfy a list of conditions. */
    const counter: seq<Condition> -> nat

    constructor (counter: seq<Condition> -> nat)
      ensures conditions == [] && this.counter == counter
    {
      conditions := [];
      this.counter := counter;
    }

    /** `where(...)`: adds one condition and returns the same builder. */
    method Where(field: string, op: Operator, operand: Value)
      modifies this`conditions
      ensures conditions == old(conditions) + [Condition(field, op, operand)]
    {
      conditions := conditions + [Condition(field, op, operand)];
    }

    /** `count()`. */
    function Count(): nat
      reads this
    {
      counter(conditions)
    }
  }
}
