/** `TongjiApi.StudentInfo.Gender`: the student's gender and its numeric code. */
module StudentInfo {

  datatype Gender = Unknown | Male | Female | Untold {
    /** The code each enum entry is declared with. */
    function Code(): int {
      match this
      case Unknown => 0
      case Male => 1
      case Female => 2
      case Untold => 9
    }
  }

  /** `Gender.make`: the entry whose code is `code`, tried in declaration order;
      any other code means `Unknown`. */
  function Make(code: int): (g: Gender)
    ensures code in {0, 1, 2, 9} ==> g.Code() == code
    ensures code !in {0, 1, 2, 9} ==> g == Unknown
  {
    if code == Unknown.Code() then Unknown
    else if code == Male.Code() then Male
    else if code == Female.Code() then Female
    else if code == Untold.Code() then Untold
    else Unknown
  }

  /** Decoding the code of an entry gives back the entry, and no two entries share a code. */
  lemma MakeInvertsCode(g: Gender)
    ensures Make(g.Code()) == g
    ensures forall h: Gender :: h.Code() == g.Code() ==> h == g
  {
  }
}
