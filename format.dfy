/** The formatting policy: named whitespace switches, fixed for one rendering session. */
module FormatPolicy {

  datatype Format = Format(
    spaceBeforeOpeningParenInFor: bool,                 // insert_space_before_opening_paren_in_for
    spaceAfterOpeningParenInFor: bool,                  // insert_space_after_opening_paren_in_for
    spaceAfterOpeningBracketInArrayAllocation: bool,    // insert_space_after_opening_bracket_in_array_allocation_expression
    spaceBeforeClosingBracketInArrayAllocation: bool,   // insert_space_before_closing_bracket_in_array_allocation_expression
    indentWithSpaces: bool,
    indentationSize: nat)

  /** Every whitespace switch off; indentation by tabs. */
  const Default: Format := Format(false, false, false, false, false, 4)
}
