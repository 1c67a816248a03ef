/**
 * The OpensearchMapping value that a generated GetOpensearchMappings routine
 * builds, as the generator writes it down: every part it sets, with the
 * properties either a literal map or a call to another message's routine.
 */
module OpensearchTypes {
  import opened Protogen

  /** The Index pointer: nil, or the address of the routine's local `falseBool`. */
  datatype IndexRef = Unset | FalseBool

  /** The Properties of a mapping: a literal map (empty when left unset) or the
      result of calling the routine generated for a message. */
  datatype Props =
    | Literal(entries: map<string, OpensearchMapping>)
    | CallRoutine(ident: Ident)

  datatype OpensearchMapping = OpensearchMapping(
    typ: string,
    properties: Props,
    fields: map<string, OpensearchMapping>,
    index: IndexRef,
    ignoreAbove: int)

  /** Whether the mapping expression takes the address of `falseBool` anywhere. */
  predicate RefersFalseBool(e: OpensearchMapping)
    decreases e
  {
    || e.index == FalseBool
    || (e.properties.Literal? &&
        exists k :: k in e.properties.entries && RefersFalseBool(e.properties.entries[k]))
    || (exists k :: k in e.fields && RefersFalseBool(e.fields[k]))
  }

}
