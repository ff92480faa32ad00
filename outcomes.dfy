/**
 * Optional values, results and the exceptions the d2lib decoder can end
 * with (`d2lib/errors.py` plus the Python runtime errors its code can
 * raise on unusual input).
 */
module Outcomes {

  datatype Option<T> = None | Some(value: T)

  datatype Result<T> = Ok(value: T) | Err(error: Error)
  {
    predicate IsFailure() { Err? }

    function PropagateFailure<U>(): Result<U>
      requires Err?
    {
      Err(error)
    }

    function Extract(): T
      requires Ok?
    {
      value
    }
  }

  /** How a step that sets fields in place ended: normally, or with an exception. */
  datatype Outcome = Pass | Fail(error: Error)
  {
    predicate IsFailure() { Fail? }

    function PropagateFailure(): Outcome
      requires Fail?
    {
      this
    }
  }

  /** Why an item or an item list was rejected (`ItemParseError`). */
  datatype ItemProblem =
    | InvalidItemHeaderId(headerId: nat)
    | UnknownMagicAttr(attrId: nat)
    | InvalidItemsHeader(itemsHeader: nat)
    | UnknownItem(code: string)

  /** Why a character save was rejected (`D2SFileParseError`). */
  datatype D2SProblem =
    | InvalidHeaderId(headerId: nat)
    | InvalidFileSize(fileSize: nat)
    | ChecksumMismatch(stored: seq<int>, expected: seq<int>)
    | InvalidSkillHeader(skillHeader: nat)

  /** Why a PlugY stash was rejected (`StashFileParseError`). */
  datatype StashProblem =
    | InvalidStashFileHeader(header: nat)
    | InvalidStashHeader(stashHeader: nat)
    | InvalidVersion(version: nat)

  /** The value an enumeration constructor or `int()` refused (`ValueError`). */
  datatype BadValue =
    | NotCharacterAttribute(attrId: nat)
    | NotCharacterClass(classId: nat)
    | NotDifficulty(difficulty: nat)
    | NotTown(town: nat)
    | NotSkill(skillId: nat)
    | NotDecimalKey(key: string)
    /** `bytes.decode('ASCII')` met a byte above 127 (`UnicodeDecodeError`). */
    | NotAscii(byteValue: nat)

  datatype Error =
    | ItemParseError(item: ItemProblem)
    | D2SFileParseError(d2s: D2SProblem)
    | StashFileParseError(stash: StashProblem)
    | ValueError(bad: BadValue)
    | KeyError
    | IndexError
    | TypeError
    | AttributeError
    | OverflowError
    /**
     * The source loops forever: a count-free loop keeps reading zero bits
     * past the end of the data and never meets its terminator.
     */
    | NonTerminating
}
