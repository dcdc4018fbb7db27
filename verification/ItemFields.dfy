/** Where each parameter of an item goes: the tables behind the three item parsers, from the
    (type id, abbreviation) of a format row to a member of the item structure. */
module ItemFields {
  import opened Wire

  const DATA_ID_TIME: Byte := 0x04
  const DATA_ID_BIT: Byte := 0x06
  const DATA_ID_WORD: Byte := 0x08
  const DATA_ID_UCHAR: Byte := 0x0b
  const DATA_ID_BARRAY: Byte := 0x0c
  const DATA_ID_UTF8: Byte := 0x11
  const DATA_ID_ULONG: Byte := 0x12

  datatype Kind = TodoItem | CalendarItem | AddressItem

  /** The members of the three item structures, numbered. */
  type Field = nat

  const ATTRIBUTE: Field := 0
  const CREATION_DATE: Field := 1
  const MODIFICATION_DATE: Field := 2
  const SYNC_ID: Field := 3
  const CATEGORY: Field := 4
  const START_DATE: Field := 5
  const DUE_DATE: Field := 6
  const COMPLETED_DATE: Field := 7
  const PROGRESS: Field := 8
  const PRIORITY: Field := 9
  const DESCRIPTION: Field := 10
  const NOTES: Field := 11
  const START_TIME: Field := 12
  const END_TIME: Field := 13
  const REPEAT_END_DATE: Field := 14
  const ALL_DAY_START_DATE: Field := 15
  const ALL_DAY_END_DATE: Field := 16
  const SCHEDULE_TYPE: Field := 17
  const ALARM: Field := 18
  const ALARM_SETTING: Field := 19
  const REPEAT_TYPE: Field := 20
  const REPEAT_DATE: Field := 21
  const REPEAT_END_DATE_SETTING: Field := 22
  const MULTIPLE_DAYS_FLAG: Field := 23
  const ALARM_TIME: Field := 24
  const REPEAT_PERIOD: Field := 25
  const REPEAT_POSITION: Field := 26
  const LOCATION: Field := 27
  const FULL_NAME: Field := 28
  const FULL_NAME_PRONUN: Field := 29
  const TITLE: Field := 30
  const LAST_NAME: Field := 31
  const FIRST_NAME: Field := 32
  const MIDDLE_NAME: Field := 33
  const SUFFIX: Field := 34
  const ALTERNATIVE_NAME: Field := 35
  const LAST_NAME_PRONUN: Field := 36
  const FIRST_NAME_PRONUN: Field := 37
  const COMPANY: Field := 38
  const COMPANY_PRONUN: Field := 39
  const DEPARTMENT: Field := 40
  const JOB_TITLE: Field := 41
  const WORK_PHONE: Field := 42
  const WORK_FAX: Field := 43
  const WORK_MOBILE: Field := 44
  const WORK_STATE: Field := 45
  const WORK_CITY: Field := 46
  const WORK_STREET: Field := 47
  const WORK_ZIP: Field := 48
  const WORK_COUNTRY: Field := 49
  const WORK_WEB_PAGE: Field := 50
  const OFFICE: Field := 51
  const PROFESSION: Field := 52
  const ASSISTANT: Field := 53
  const MANAGER: Field := 54
  const PAGER: Field := 55
  const CELLULAR: Field := 56
  const HOME_PHONE: Field := 57
  const HOME_FAX: Field := 58
  const HOME_STATE: Field := 59
  const HOME_CITY: Field := 60
  const HOME_STREET: Field := 61
  const HOME_ZIP: Field := 62
  const HOME_COUNTRY: Field := 63
  const HOME_WEB_PAGE: Field := 64
  const DEFAULT_EMAIL: Field := 65
  const EMAILS: Field := 66
  const SPOUSE: Field := 67
  const GENDER: Field := 68
  const BIRTHDAY: Field := 69
  const ANNIVERSARY: Field := 70
  const NICKNAME: Field := 71
  const CHILDREN: Field := 72
  const MEMO: Field := 73
  const GROUP: Field := 74

  /** A fixed-size member of the item structure, or a length and a pointer to a block; the code is
      what the parser returns when that block cannot be allocated. */
  datatype Slot = NoSlot | Fixed(field: Field, width: nat) | Text(field: Field, code: int)

  function SlotFor(kind: Kind, typeId: Byte, a: Abrev): Slot {
    if typeId == DATA_ID_TIME then TimeSlot(kind, a)
    else if typeId == DATA_ID_BIT then
      if a == Abrev('A', 'T', 'T', 'R') then Fixed(ATTRIBUTE, 1) else NoSlot
    else if typeId == DATA_ID_UCHAR then UcharSlot(kind, a)
    else if typeId == DATA_ID_WORD then WordSlot(kind, a)
    else if typeId == DATA_ID_BARRAY then
      if a == Abrev('C', 'T', 'G', 'R') then Text(CATEGORY, -2) else NoSlot
    else if typeId == DATA_ID_UTF8 then TextSlot(kind, a)
    else if typeId == DATA_ID_ULONG then
      if a == Abrev('S', 'Y', 'I', 'D') then Fixed(SYNC_ID, 4) else NoSlot
    else NoSlot
  }

  function TimeSlot(kind: Kind, a: Abrev): Slot {
    if a == Abrev('C', 'T', 'T', 'M') then Fixed(CREATION_DATE, 5)
    else if a == Abrev('M', 'D', 'T', 'M') then Fixed(MODIFICATION_DATE, 5)
    else
      match kind
      case TodoItem =>
        if a == Abrev('E', 'T', 'D', 'Y') then Fixed(START_DATE, 5)
        else if a == Abrev('L', 'T', 'D', 'Y') then Fixed(DUE_DATE, 5)
        else if a == Abrev('F', 'N', 'D', 'Y') then Fixed(COMPLETED_DATE, 5)
        else NoSlot
      case CalendarItem =>
        if a == Abrev('T', 'I', 'M', '1') then Fixed(START_TIME, 5)
        else if a == Abrev('T', 'I', 'M', '2') then Fixed(END_TIME, 5)
        else if a == Abrev('R', 'E', 'D', 'T') then Fixed(REPEAT_END_DATE, 5)
        else if a == Abrev('A', 'L', 'S', 'D') then Fixed(ALL_DAY_START_DATE, 5)
        else if a == Abrev('A', 'L', 'E', 'D') then Fixed(ALL_DAY_END_DATE, 5)
        else NoSlot
      case AddressItem => NoSlot
  }

  function UcharSlot(kind: Kind, a: Abrev): Slot {
    match kind
    case TodoItem =>
      if a == Abrev('M', 'A', 'R', 'K') then Fixed(PROGRESS, 1)
      else if a == Abrev('P', 'R', 'T', 'Y') then Fixed(PRIORITY, 1)
      else NoSlot
    case CalendarItem =>
      if a == Abrev('A', 'D', 'A', 'Y') then Fixed(SCHEDULE_TYPE, 1)
      else if a == Abrev('A', 'R', 'O', 'N') then Fixed(ALARM, 1)
      else if a == Abrev('A', 'R', 'S', 'D') then Fixed(ALARM_SETTING, 1)
      else if a == Abrev('R', 'T', 'Y', 'P') then Fixed(REPEAT_TYPE, 1)
      else if a == Abrev('R', 'D', 'Y', 'S') then Fixed(REPEAT_DATE, 1)
      else if a == Abrev('R', 'E', 'N', 'D') then Fixed(REPEAT_END_DATE_SETTING, 1)
      else if a == Abrev('M', 'D', 'A', 'Y') then Fixed(MULTIPLE_DAYS_FLAG, 1)
      else NoSlot
    case AddressItem => NoSlot
  }

  function WordSlot(kind: Kind, a: Abrev): Slot {
    if kind != CalendarItem then NoSlot
    else if a == Abrev('A', 'R', 'M', 'N') then Fixed(ALARM_TIME, 2)
    else if a == Abrev('R', 'F', 'R', 'Q') then Fixed(REPEAT_PERIOD, 2)
    else if a == Abrev('R', 'P', 'O', 'S') then Fixed(REPEAT_POSITION, 2)
    else NoSlot
  }

  function TextSlot(kind: Kind, a: Abrev): Slot {
    match kind
    case TodoItem =>
      if a == Abrev('T', 'I', 'T', 'L') then Text(DESCRIPTION, -3)
      else if a == Abrev('M', 'E', 'M', '1') then Text(NOTES, -4)
      else NoSlot
    case CalendarItem =>
      if a == Abrev('D', 'S', 'R', 'P') then Text(DESCRIPTION, -3)
      else if a == Abrev('P', 'L', 'C', 'E') then Text(LOCATION, -4)
      else if a == Abrev('M', 'E', 'M', '1') then Text(NOTES, -5)
      else NoSlot
    case AddressItem => AddressText(a)
  }

  /** The address parser's one long chain, cut into four. */
  function AddressText(a: Abrev): Slot {
    if NameText(a) != NoSlot then NameText(a)
    else if WorkText(a) != NoSlot then WorkText(a)
    else if HomeText(a) != NoSlot then HomeText(a)
    else PrivateText(a)
  }

  function NameText(a: Abrev): Slot {
    if a == Abrev('F', 'U', 'L', 'L') then Text(FULL_NAME, -3)
    else if a == Abrev('N', 'A', 'P', 'R') then Text(FULL_NAME_PRONUN, -4)
    else if a == Abrev('T', 'I', 'T', 'L') then Text(TITLE, -5)
    else if a == Abrev('L', 'N', 'M', 'E') then Text(LAST_NAME, -6)
    else if a == Abrev('F', 'N', 'M', 'E') then Text(FIRST_NAME, -7)
    else if a == Abrev('M', 'N', 'M', 'E') then Text(MIDDLE_NAME, -8)
    else if a == Abrev('S', 'U', 'F', 'X') then Text(SUFFIX, -9)
    else if a == Abrev('F', 'L', 'A', 'S') then Text(ALTERNATIVE_NAME, -10)
    else if a == Abrev('L', 'N', 'P', 'R') then Text(LAST_NAME_PRONUN, -11)
    else if a == Abrev('F', 'N', 'P', 'R') then Text(FIRST_NAME_PRONUN, -12)
    else if a == Abrev('C', 'P', 'N', 'Y') then Text(COMPANY, -13)
    else if a == Abrev('C', 'P', 'P', 'R') then Text(COMPANY_PRONUN, -14)
    else if a == Abrev('S', 'C', 'T', 'N') then Text(DEPARTMENT, -15)
    else if a == Abrev('P', 'S', 'T', 'N') then Text(JOB_TITLE, -16)
    else NoSlot
  }

  function WorkText(a: Abrev): Slot {
    if a == Abrev('T', 'E', 'L', '2') then Text(WORK_PHONE, -17)
    else if a == Abrev('F', 'A', 'X', '2') then Text(WORK_FAX, -18)
    else if a == Abrev('C', 'P', 'S', '2') then Text(WORK_MOBILE, -19)
    else if a == Abrev('B', 'S', 'T', 'A') then Text(WORK_STATE, -20)
    else if a == Abrev('B', 'C', 'T', 'Y') then Text(WORK_CITY, -21)
    else if a == Abrev('B', 'S', 'T', 'R') then Text(WORK_STREET, -22)
    else if a == Abrev('B', 'Z', 'I', 'P') then Text(WORK_ZIP, -23)
    else if a == Abrev('B', 'C', 'T', 'R') then Text(WORK_COUNTRY, -24)
    else if a == Abrev('B', 'W', 'E', 'B') then Text(WORK_WEB_PAGE, -25)
    else if a == Abrev('O', 'F', 'C', 'E') then Text(OFFICE, -26)
    else if a == Abrev('P', 'R', 'F', 'S') then Text(PROFESSION, -27)
    else if a == Abrev('A', 'S', 'S', 'T') then Text(ASSISTANT, -28)
    else if a == Abrev('M', 'N', 'G', 'R') then Text(MANAGER, -29)
    else if a == Abrev('B', 'P', 'G', 'R') then Text(PAGER, -30)
    else NoSlot
  }

  function HomeText(a: Abrev): Slot {
    if a == Abrev('C', 'P', 'S', '1') then Text(CELLULAR, -31)
    else if a == Abrev('T', 'E', 'L', '1') then Text(HOME_PHONE, -32)
    else if a == Abrev('F', 'A', 'X', '1') then Text(HOME_FAX, -33)
    else if a == Abrev('H', 'S', 'T', 'A') then Text(HOME_STATE, -34)
    else if a == Abrev('H', 'C', 'T', 'Y') then Text(HOME_CITY, -35)
    else if a == Abrev('H', 'S', 'T', 'R') then Text(HOME_STREET, -36)
    else if a == Abrev('H', 'Z', 'I', 'P') then Text(HOME_ZIP, -37)
    else if a == Abrev('H', 'C', 'T', 'R') then Text(HOME_COUNTRY, -38)
    else if a == Abrev('H', 'W', 'E', 'B') then Text(HOME_WEB_PAGE, -39)
    else if a == Abrev('D', 'M', 'A', 'L') then Text(DEFAULT_EMAIL, -40)
    else NoSlot
  }

  function PrivateText(a: Abrev): Slot {
    if a == Abrev('M', 'A', 'L', '1') then Text(EMAILS, -41)
    else if a == Abrev('S', 'P', 'U', 'S') then Text(SPOUSE, -42)
    else if a == Abrev('G', 'N', 'D', 'R') then Text(GENDER, -43)
    else if a == Abrev('B', 'R', 'T', 'H') then Text(BIRTHDAY, -44)
    else if a == Abrev('A', 'N', 'I', 'V') then Text(ANNIVERSARY, -45)
    else if a == Abrev('N', 'C', 'N', 'M') then Text(NICKNAME, -46)
    else if a == Abrev('C', 'L', 'D', 'R') then Text(CHILDREN, -47)
    else if a == Abrev('M', 'E', 'M', '1') then Text(MEMO, -48)
    else if a == Abrev('G', 'R', 'P', 'S') then Text(GROUP, -49)
    else NoSlot
  }

  // The other direction: the one key under which a kind of item knows a field.

  type Key = (Byte, Abrev)

  const NO_KEY: Key := (0, Abrev('\0', '\0', '\0', '\0'))

  function KeyOf(kind: Kind, f: Field): Key {
    if f == ATTRIBUTE then (DATA_ID_BIT, Abrev('A', 'T', 'T', 'R'))
    else if f == CREATION_DATE then (DATA_ID_TIME, Abrev('C', 'T', 'T', 'M'))
    else if f == MODIFICATION_DATE then (DATA_ID_TIME, Abrev('M', 'D', 'T', 'M'))
    else if f == SYNC_ID then (DATA_ID_ULONG, Abrev('S', 'Y', 'I', 'D'))
    else if f == CATEGORY then (DATA_ID_BARRAY, Abrev('C', 'T', 'G', 'R'))
    else if f == DESCRIPTION then (DATA_ID_UTF8, if kind == TodoItem then Abrev('T', 'I', 'T', 'L') else Abrev('D', 'S', 'R', 'P'))
    else if f == NOTES then (DATA_ID_UTF8, Abrev('M', 'E', 'M', '1'))
    else if f == START_DATE then (DATA_ID_TIME, Abrev('E', 'T', 'D', 'Y'))
    else if f == DUE_DATE then (DATA_ID_TIME, Abrev('L', 'T', 'D', 'Y'))
    else if f == COMPLETED_DATE then (DATA_ID_TIME, Abrev('F', 'N', 'D', 'Y'))
    else if f == PROGRESS then (DATA_ID_UCHAR, Abrev('M', 'A', 'R', 'K'))
    else if f == PRIORITY then (DATA_ID_UCHAR, Abrev('P', 'R', 'T', 'Y'))
    else if f == START_TIME then (DATA_ID_TIME, Abrev('T', 'I', 'M', '1'))
    else if f == END_TIME then (DATA_ID_TIME, Abrev('T', 'I', 'M', '2'))
    else if f == REPEAT_END_DATE then (DATA_ID_TIME, Abrev('R', 'E', 'D', 'T'))
    else if f == ALL_DAY_START_DATE then (DATA_ID_TIME, Abrev('A', 'L', 'S', 'D'))
    else if f == ALL_DAY_END_DATE then (DATA_ID_TIME, Abrev('A', 'L', 'E', 'D'))
    else if f == SCHEDULE_TYPE then (DATA_ID_UCHAR, Abrev('A', 'D', 'A', 'Y'))
    else if f == ALARM then (DATA_ID_UCHAR, Abrev('A', 'R', 'O', 'N'))
    else if f == ALARM_SETTING then (DATA_ID_UCHAR, Abrev('A', 'R', 'S', 'D'))
    else if f == REPEAT_TYPE then (DATA_ID_UCHAR, Abrev('R', 'T', 'Y', 'P'))
    else if f == REPEAT_DATE then (DATA_ID_UCHAR, Abrev('R', 'D', 'Y', 'S'))
    else if f == REPEAT_END_DATE_SETTING then (DATA_ID_UCHAR, Abrev('R', 'E', 'N', 'D'))
    else if f == MULTIPLE_DAYS_FLAG then (DATA_ID_UCHAR, Abrev('M', 'D', 'A', 'Y'))
    else if f == ALARM_TIME then (DATA_ID_WORD, Abrev('A', 'R', 'M', 'N'))
    else if f == REPEAT_PERIOD then (DATA_ID_WORD, Abrev('R', 'F', 'R', 'Q'))
    else if f == REPEAT_POSITION then (DATA_ID_WORD, Abrev('R', 'P', 'O', 'S'))
    else if f == LOCATION then (DATA_ID_UTF8, Abrev('P', 'L', 'C', 'E'))
    else if f == FULL_NAME then (DATA_ID_UTF8, Abrev('F', 'U', 'L', 'L'))
    else if f == FULL_NAME_PRONUN then (DATA_ID_UTF8, Abrev('N', 'A', 'P', 'R'))
    else if f == TITLE then (DATA_ID_UTF8, Abrev('T', 'I', 'T', 'L'))
    else if f == LAST_NAME then (DATA_ID_UTF8, Abrev('L', 'N', 'M', 'E'))
    else if f == FIRST_NAME then (DATA_ID_UTF8, Abrev('F', 'N', 'M', 'E'))
    else if f == MIDDLE_NAME then (DATA_ID_UTF8, Abrev('M', 'N', 'M', 'E'))
    else if f == SUFFIX then (DATA_ID_UTF8, Abrev('S', 'U', 'F', 'X'))
    else if f == ALTERNATIVE_NAME then (DATA_ID_UTF8, Abrev('F', 'L', 'A', 'S'))
    else if f == LAST_NAME_PRONUN then (DATA_ID_UTF8, Abrev('L', 'N', 'P', 'R'))
    else if f == FIRST_NAME_PRONUN then (DATA_ID_UTF8, Abrev('F', 'N', 'P', 'R'))
    else if f == COMPANY then (DATA_ID_UTF8, Abrev('C', 'P', 'N', 'Y'))
    else if f == COMPANY_PRONUN then (DATA_ID_UTF8, Abrev('C', 'P', 'P', 'R'))
    else if f == DEPARTMENT then (DATA_ID_UTF8, Abrev('S', 'C', 'T', 'N'))
    else if f == JOB_TITLE then (DATA_ID_UTF8, Abrev('P', 'S', 'T', 'N'))
    else if f == WORK_PHONE then (DATA_ID_UTF8, Abrev('T', 'E', 'L', '2'))
    else if f == WORK_FAX then (DATA_ID_UTF8, Abrev('F', 'A', 'X', '2'))
    else if f == WORK_MOBILE then (DATA_ID_UTF8, Abrev('C', 'P', 'S', '2'))
    else if f == WORK_STATE then (DATA_ID_UTF8, Abrev('B', 'S', 'T', 'A'))
    else if f == WORK_CITY then (DATA_ID_UTF8, Abrev('B', 'C', 'T', 'Y'))
    else if f == WORK_STREET then (DATA_ID_UTF8, Abrev('B', 'S', 'T', 'R'))
    else if f == WORK_ZIP then (DATA_ID_UTF8, Abrev('B', 'Z', 'I', 'P'))
    else if f == WORK_COUNTRY then (DATA_ID_UTF8, Abrev('B', 'C', 'T', 'R'))
    else if f == WORK_WEB_PAGE then (DATA_ID_UTF8, Abrev('B', 'W', 'E', 'B'))
    else if f == OFFICE then (DATA_ID_UTF8, Abrev('O', 'F', 'C', 'E'))
    else if f == PROFESSION then (DATA_ID_UTF8, Abrev('P', 'R', 'F', 'S'))
    else if f == ASSISTANT then (DATA_ID_UTF8, Abrev('A', 'S', 'S', 'T'))
    else if f == MANAGER then (DATA_ID_UTF8, Abrev('M', 'N', 'G', 'R'))
    else if f == PAGER then (DATA_ID_UTF8, Abrev('B', 'P', 'G', 'R'))
    else if f == CELLULAR then (DATA_ID_UTF8, Abrev('C', 'P', 'S', '1'))
    else if f == HOME_PHONE then (DATA_ID_UTF8, Abrev('T', 'E', 'L', '1'))
    else if f == HOME_FAX then (DATA_ID_UTF8, Abrev('F', 'A', 'X', '1'))
    else if f == HOME_STATE then (DATA_ID_UTF8, Abrev('H', 'S', 'T', 'A'))
    else if f == HOME_CITY then (DATA_ID_UTF8, Abrev('H', 'C', 'T', 'Y'))
    else if f == HOME_STREET then (DATA_ID_UTF8, Abrev('H', 'S', 'T', 'R'))
    else if f == HOME_ZIP then (DATA_ID_UTF8, Abrev('H', 'Z', 'I', 'P'))
    else if f == HOME_COUNTRY then (DATA_ID_UTF8, Abrev('H', 'C', 'T', 'R'))
    else if f == HOME_WEB_PAGE then (DATA_ID_UTF8, Abrev('H', 'W', 'E', 'B'))
    else if f == DEFAULT_EMAIL then (DATA_ID_UTF8, Abrev('D', 'M', 'A', 'L'))
    else if f == EMAILS then (DATA_ID_UTF8, Abrev('M', 'A', 'L', '1'))
    else if f == SPOUSE then (DATA_ID_UTF8, Abrev('S', 'P', 'U', 'S'))
    else if f == GENDER then (DATA_ID_UTF8, Abrev('G', 'N', 'D', 'R'))
    else if f == BIRTHDAY then (DATA_ID_UTF8, Abrev('B', 'R', 'T', 'H'))
    else if f == ANNIVERSARY then (DATA_ID_UTF8, Abrev('A', 'N', 'I', 'V'))
    else if f == NICKNAME then (DATA_ID_UTF8, Abrev('N', 'C', 'N', 'M'))
    else if f == CHILDREN then (DATA_ID_UTF8, Abrev('C', 'L', 'D', 'R'))
    else if f == MEMO then (DATA_ID_UTF8, Abrev('M', 'E', 'M', '1'))
    else if f == GROUP then (DATA_ID_UTF8, Abrev('G', 'R', 'P', 'S'))
    else NO_KEY
  }

  lemma NameTextHasOneKey(a: Abrev)
    ensures NameText(a) != NoSlot ==> KeyOf(AddressItem, NameText(a).field) == (DATA_ID_UTF8, a)
  {
  }

  lemma WorkTextHasOneKey(a: Abrev)
    ensures WorkText(a) != NoSlot ==> KeyOf(AddressItem, WorkText(a).field) == (DATA_ID_UTF8, a)
  {
  }

  lemma HomeTextHasOneKey(a: Abrev)
    ensures HomeText(a) != NoSlot ==> KeyOf(AddressItem, HomeText(a).field) == (DATA_ID_UTF8, a)
  {
  }

  lemma PrivateTextHasOneKey(a: Abrev)
    ensures PrivateText(a) != NoSlot ==> KeyOf(AddressItem, PrivateText(a).field) == (DATA_ID_UTF8, a)
  {
  }

  lemma TextHasOneKey(kind: Kind, a: Abrev)
    ensures TextSlot(kind, a) != NoSlot ==> KeyOf(kind, TextSlot(kind, a).field) == (DATA_ID_UTF8, a)
  {
    hide NameText, WorkText, HomeText, PrivateText;
    NameTextHasOneKey(a);
    WorkTextHasOneKey(a);
    HomeTextHasOneKey(a);
    PrivateTextHasOneKey(a);
  }

  lemma FixedHasOneKey(kind: Kind, a: Abrev)
    ensures TimeSlot(kind, a) != NoSlot ==> KeyOf(kind, TimeSlot(kind, a).field) == (DATA_ID_TIME, a)
    ensures UcharSlot(kind, a) != NoSlot ==> KeyOf(kind, UcharSlot(kind, a).field) == (DATA_ID_UCHAR, a)
    ensures WordSlot(kind, a) != NoSlot ==> KeyOf(kind, WordSlot(kind, a).field) == (DATA_ID_WORD, a)
  {
  }

  /** No two keys lead to the same field. */
  lemma SlotHasOneKey(kind: Kind, typeId: Byte, a: Abrev)
    ensures SlotFor(kind, typeId, a) != NoSlot ==> KeyOf(kind, SlotFor(kind, typeId, a).field) == (typeId, a)
  {
    hide TextSlot, TimeSlot, UcharSlot, WordSlot;
    TextHasOneKey(kind, a);
    FixedHasOneKey(kind, a);
  }

  // The tables spelled out: every key of each parser, in both directions.

  /** The members of each item structure. */
  predicate Member(kind: Kind, f: Field) {
    match kind
    case TodoItem => f <= NOTES
    case CalendarItem => f <= CATEGORY || DESCRIPTION <= f <= NOTES || START_TIME <= f <= LOCATION
    case AddressItem => f <= CATEGORY || FULL_NAME <= f <= GROUP
  }

  /** The keys the todo parser knows, the member each leads to, and its width or the code of a failing
      malloc. */
  lemma TodoKeys(t: Byte, a: Abrev)
    ensures var s := SlotFor(TodoItem, t, a);
            && (s == Fixed(CREATION_DATE, 5) <==> t == 0x04 && a == Abrev('C', 'T', 'T', 'M'))
            && (s == Fixed(MODIFICATION_DATE, 5) <==> t == 0x04 && a == Abrev('M', 'D', 'T', 'M'))
            && (s == Fixed(START_DATE, 5) <==> t == 0x04 && a == Abrev('E', 'T', 'D', 'Y'))
            && (s == Fixed(DUE_DATE, 5) <==> t == 0x04 && a == Abrev('L', 'T', 'D', 'Y'))
            && (s == Fixed(COMPLETED_DATE, 5) <==> t == 0x04 && a == Abrev('F', 'N', 'D', 'Y'))
            && (s == Fixed(ATTRIBUTE, 1) <==> t == 0x06 && a == Abrev('A', 'T', 'T', 'R'))
            && (s == Fixed(PROGRESS, 1) <==> t == 0x0b && a == Abrev('M', 'A', 'R', 'K'))
            && (s == Fixed(PRIORITY, 1) <==> t == 0x0b && a == Abrev('P', 'R', 'T', 'Y'))
            && (s == Text(CATEGORY, -2) <==> t == 0x0c && a == Abrev('C', 'T', 'G', 'R'))
            && (s == Text(DESCRIPTION, -3) <==> t == 0x11 && a == Abrev('T', 'I', 'T', 'L'))
            && (s == Text(NOTES, -4) <==> t == 0x11 && a == Abrev('M', 'E', 'M', '1'))
            && (s == Fixed(SYNC_ID, 4) <==> t == 0x12 && a == Abrev('S', 'Y', 'I', 'D'))
            && (s != NoSlot ==> Member(TodoItem, s.field))
  {
  }

  /** The keys the calendar parser knows, the member each leads to, and its width or the code of a failing
      malloc. */
  lemma CalendarKeys(t: Byte, a: Abrev)
    ensures var s := SlotFor(CalendarItem, t, a);
            && (s == Fixed(CREATION_DATE, 5) <==> t == 0x04 && a == Abrev('C', 'T', 'T', 'M'))
            && (s == Fixed(MODIFICATION_DATE, 5) <==> t == 0x04 && a == Abrev('M', 'D', 'T', 'M'))
            && (s == Fixed(START_TIME, 5) <==> t == 0x04 && a == Abrev('T', 'I', 'M', '1'))
            && (s == Fixed(END_TIME, 5) <==> t == 0x04 && a == Abrev('T', 'I', 'M', '2'))
            && (s == Fixed(REPEAT_END_DATE, 5) <==> t == 0x04 && a == Abrev('R', 'E', 'D', 'T'))
            && (s == Fixed(ALL_DAY_START_DATE, 5) <==> t == 0x04 && a == Abrev('A', 'L', 'S', 'D'))
            && (s == Fixed(ALL_DAY_END_DATE, 5) <==> t == 0x04 && a == Abrev('A', 'L', 'E', 'D'))
            && (s == Fixed(ATTRIBUTE, 1) <==> t == 0x06 && a == Abrev('A', 'T', 'T', 'R'))
            && (s == Fixed(SCHEDULE_TYPE, 1) <==> t == 0x0b && a == Abrev('A', 'D', 'A', 'Y'))
            && (s == Fixed(ALARM, 1) <==> t == 0x0b && a == Abrev('A', 'R', 'O', 'N'))
            && (s == Fixed(ALARM_SETTING, 1) <==> t == 0x0b && a == Abrev('A', 'R', 'S', 'D'))
            && (s == Fixed(REPEAT_TYPE, 1) <==> t == 0x0b && a == Abrev('R', 'T', 'Y', 'P'))
            && (s == Fixed(REPEAT_DATE, 1) <==> t == 0x0b && a == Abrev('R', 'D', 'Y', 'S'))
            && (s == Fixed(REPEAT_END_DATE_SETTING, 1) <==> t == 0x0b && a == Abrev('R', 'E', 'N', 'D'))
            && (s == Fixed(MULTIPLE_DAYS_FLAG, 1) <==> t == 0x0b && a == Abrev('M', 'D', 'A', 'Y'))
            && (s == Fixed(ALARM_TIME, 2) <==> t == 0x08 && a == Abrev('A', 'R', 'M', 'N'))
            && (s == Fixed(REPEAT_PERIOD, 2) <==> t == 0x08 && a == Abrev('R', 'F', 'R', 'Q'))
            && (s == Fixed(REPEAT_POSITION, 2) <==> t == 0x08 && a == Abrev('R', 'P', 'O', 'S'))
            && (s == Text(CATEGORY, -2) <==> t == 0x0c && a == Abrev('C', 'T', 'G', 'R'))
            && (s == Text(DESCRIPTION, -3) <==> t == 0x11 && a == Abrev('D', 'S', 'R', 'P'))
            && (s == Text(LOCATION, -4) <==> t == 0x11 && a == Abrev('P', 'L', 'C', 'E'))
            && (s == Text(NOTES, -5) <==> t == 0x11 && a == Abrev('M', 'E', 'M', '1'))
            && (s == Fixed(SYNC_ID, 4) <==> t == 0x12 && a == Abrev('S', 'Y', 'I', 'D'))
            && (s != NoSlot ==> Member(CalendarItem, s.field))
  {
  }

  /** The keys the address parser knows, the member each leads to, and its width or the code of a failing
      malloc. */
  lemma AddressKeys(t: Byte, a: Abrev)
    ensures var s := SlotFor(AddressItem, t, a);
            && (s == Fixed(CREATION_DATE, 5) <==> t == 0x04 && a == Abrev('C', 'T', 'T', 'M'))
            && (s == Fixed(MODIFICATION_DATE, 5) <==> t == 0x04 && a == Abrev('M', 'D', 'T', 'M'))
            && (s == Fixed(ATTRIBUTE, 1) <==> t == 0x06 && a == Abrev('A', 'T', 'T', 'R'))
            && (s == Text(CATEGORY, -2) <==> t == 0x0c && a == Abrev('C', 'T', 'G', 'R'))
            && (s == Fixed(SYNC_ID, 4) <==> t == 0x12 && a == Abrev('S', 'Y', 'I', 'D'))
            && (s != NoSlot ==> Member(AddressItem, s.field))
  {
    hide NameText, WorkText, HomeText, PrivateText;
    AddressTexts(a);
  }

  lemma AddressTexts(a: Abrev)
    ensures NameText(a) == NoSlot || (NameText(a).Text? && FULL_NAME <= NameText(a).field <= JOB_TITLE)
    ensures WorkText(a) == NoSlot || (WorkText(a).Text? && WORK_PHONE <= WorkText(a).field <= PAGER)
    ensures HomeText(a) == NoSlot || (HomeText(a).Text? && CELLULAR <= HomeText(a).field <= DEFAULT_EMAIL)
    ensures PrivateText(a) == NoSlot || (PrivateText(a).Text? && EMAILS <= PrivateText(a).field <= GROUP)
  {
  }

  /** The four parts of the address parser's chain know different letters. */
  lemma ChainsApart(a: Abrev)
    ensures NameText(a) != NoSlot ==> WorkText(a) == HomeText(a) == PrivateText(a) == NoSlot
    ensures WorkText(a) != NoSlot ==> HomeText(a) == PrivateText(a) == NoSlot
    ensures HomeText(a) != NoSlot ==> PrivateText(a) == NoSlot
  {
  }

  lemma AddressNameKeys(t: Byte, a: Abrev)
    ensures var s := SlotFor(AddressItem, t, a);
            && (s == Text(FULL_NAME, -3) <==> t == 0x11 && a == Abrev('F', 'U', 'L', 'L'))
            && (s == Text(FULL_NAME_PRONUN, -4) <==> t == 0x11 && a == Abrev('N', 'A', 'P', 'R'))
            && (s == Text(TITLE, -5) <==> t == 0x11 && a == Abrev('T', 'I', 'T', 'L'))
            && (s == Text(LAST_NAME, -6) <==> t == 0x11 && a == Abrev('L', 'N', 'M', 'E'))
            && (s == Text(FIRST_NAME, -7) <==> t == 0x11 && a == Abrev('F', 'N', 'M', 'E'))
            && (s == Text(MIDDLE_NAME, -8) <==> t == 0x11 && a == Abrev('M', 'N', 'M', 'E'))
            && (s == Text(SUFFIX, -9) <==> t == 0x11 && a == Abrev('S', 'U', 'F', 'X'))
            && (s == Text(ALTERNATIVE_NAME, -10) <==> t == 0x11 && a == Abrev('F', 'L', 'A', 'S'))
            && (s == Text(LAST_NAME_PRONUN, -11) <==> t == 0x11 && a == Abrev('L', 'N', 'P', 'R'))
            && (s == Text(FIRST_NAME_PRONUN, -12) <==> t == 0x11 && a == Abrev('F', 'N', 'P', 'R'))
            && (s == Text(COMPANY, -13) <==> t == 0x11 && a == Abrev('C', 'P', 'N', 'Y'))
            && (s == Text(COMPANY_PRONUN, -14) <==> t == 0x11 && a == Abrev('C', 'P', 'P', 'R'))
            && (s == Text(DEPARTMENT, -15) <==> t == 0x11 && a == Abrev('S', 'C', 'T', 'N'))
            && (s == Text(JOB_TITLE, -16) <==> t == 0x11 && a == Abrev('P', 'S', 'T', 'N'))
  {
    hide WorkText, HomeText, PrivateText;
    AddressTexts(a);
    ChainsApart(a);
  }

  lemma AddressWorkKeys(t: Byte, a: Abrev)
    ensures var s := SlotFor(AddressItem, t, a);
            && (s == Text(WORK_PHONE, -17) <==> t == 0x11 && a == Abrev('T', 'E', 'L', '2'))
            && (s == Text(WORK_FAX, -18) <==> t == 0x11 && a == Abrev('F', 'A', 'X', '2'))
            && (s == Text(WORK_MOBILE, -19) <==> t == 0x11 && a == Abrev('C', 'P', 'S', '2'))
            && (s == Text(WORK_STATE, -20) <==> t == 0x11 && a == Abrev('B', 'S', 'T', 'A'))
            && (s == Text(WORK_CITY, -21) <==> t == 0x11 && a == Abrev('B', 'C', 'T', 'Y'))
            && (s == Text(WORK_STREET, -22) <==> t == 0x11 && a == Abrev('B', 'S', 'T', 'R'))
            && (s == Text(WORK_ZIP, -23) <==> t == 0x11 && a == Abrev('B', 'Z', 'I', 'P'))
            && (s == Text(WORK_COUNTRY, -24) <==> t == 0x11 && a == Abrev('B', 'C', 'T', 'R'))
            && (s == Text(WORK_WEB_PAGE, -25) <==> t == 0x11 && a == Abrev('B', 'W', 'E', 'B'))
            && (s == Text(OFFICE, -26) <==> t == 0x11 && a == Abrev('O', 'F', 'C', 'E'))
            && (s == Text(PROFESSION, -27) <==> t == 0x11 && a == Abrev('P', 'R', 'F', 'S'))
            && (s == Text(ASSISTANT, -28) <==> t == 0x11 && a == Abrev('A', 'S', 'S', 'T'))
            && (s == Text(MANAGER, -29) <==> t == 0x11 && a == Abrev('M', 'N', 'G', 'R'))
            && (s == Text(PAGER, -30) <==> t == 0x11 && a == Abrev('B', 'P', 'G', 'R'))
  {
    hide NameText, HomeText, PrivateText;
    AddressTexts(a);
    ChainsApart(a);
  }

  lemma AddressHomeKeys(t: Byte, a: Abrev)
    ensures var s := SlotFor(AddressItem, t, a);
            && (s == Text(CELLULAR, -31) <==> t == 0x11 && a == Abrev('C', 'P', 'S', '1'))
            && (s == Text(HOME_PHONE, -32) <==> t == 0x11 && a == Abrev('T', 'E', 'L', '1'))
            && (s == Text(HOME_FAX, -33) <==> t == 0x11 && a == Abrev('F', 'A', 'X', '1'))
            && (s == Text(HOME_STATE, -34) <==> t == 0x11 && a == Abrev('H', 'S', 'T', 'A'))
            && (s == Text(HOME_CITY, -35) <==> t == 0x11 && a == Abrev('H', 'C', 'T', 'Y'))
            && (s == Text(HOME_STREET, -36) <==> t == 0x11 && a == Abrev('H', 'S', 'T', 'R'))
            && (s == Text(HOME_ZIP, -37) <==> t == 0x11 && a == Abrev('H', 'Z', 'I', 'P'))
            && (s == Text(HOME_COUNTRY, -38) <==> t == 0x11 && a == Abrev('H', 'C', 'T', 'R'))
            && (s == Text(HOME_WEB_PAGE, -39) <==> t == 0x11 && a == Abrev('H', 'W', 'E', 'B'))
            && (s == Text(DEFAULT_EMAIL, -40) <==> t == 0x11 && a == Abrev('D', 'M', 'A', 'L'))
  {
    hide NameText, WorkText, PrivateText;
    AddressTexts(a);
    ChainsApart(a);
  }

  lemma AddressPrivateKeys(t: Byte, a: Abrev)
    ensures var s := SlotFor(AddressItem, t, a);
            && (s == Text(EMAILS, -41) <==> t == 0x11 && a == Abrev('M', 'A', 'L', '1'))
            && (s == Text(SPOUSE, -42) <==> t == 0x11 && a == Abrev('S', 'P', 'U', 'S'))
            && (s == Text(GENDER, -43) <==> t == 0x11 && a == Abrev('G', 'N', 'D', 'R'))
            && (s == Text(BIRTHDAY, -44) <==> t == 0x11 && a == Abrev('B', 'R', 'T', 'H'))
            && (s == Text(ANNIVERSARY, -45) <==> t == 0x11 && a == Abrev('A', 'N', 'I', 'V'))
            && (s == Text(NICKNAME, -46) <==> t == 0x11 && a == Abrev('N', 'C', 'N', 'M'))
            && (s == Text(CHILDREN, -47) <==> t == 0x11 && a == Abrev('C', 'L', 'D', 'R'))
            && (s == Text(MEMO, -48) <==> t == 0x11 && a == Abrev('M', 'E', 'M', '1'))
            && (s == Text(GROUP, -49) <==> t == 0x11 && a == Abrev('G', 'R', 'P', 'S'))
  {
    hide NameText, WorkText, HomeText;
    AddressTexts(a);
    ChainsApart(a);
  }

  /** Every member of a structure, and nothing else, has its own key, which leads to it. */
  lemma MemberHasKey(kind: Kind, f: Field)
    ensures var slot := SlotFor(kind, KeyOf(kind, f).0, KeyOf(kind, f).1);
            Member(kind, f) <==> slot != NoSlot && slot.field == f
  {
    hide SlotFor, KeyOf;
    var t, a := KeyOf(kind, f).0, KeyOf(kind, f).1;
    match kind {
      case TodoItem =>
        TodoKeys(t, a);
        if Member(kind, f) { TodoMember(f); }
      case CalendarItem =>
        CalendarKeys(t, a);
        if Member(kind, f) { CalendarMember(f); }
      case AddressItem =>
        AddressKeys(t, a);
        if Member(kind, f) { AddressMember(f); }
    }
  }

  lemma TodoMember(f: Field)
    requires Member(TodoItem, f)
    ensures var slot := SlotFor(TodoItem, KeyOf(TodoItem, f).0, KeyOf(TodoItem, f).1); slot != NoSlot && slot.field == f
  {
  }

  lemma CalendarMember(f: Field)
    requires Member(CalendarItem, f)
    ensures var slot := SlotFor(CalendarItem, KeyOf(CalendarItem, f).0, KeyOf(CalendarItem, f).1);
            slot != NoSlot && slot.field == f
  {
  }

  lemma AddressMember(f: Field)
    requires Member(AddressItem, f)
    ensures var slot := SlotFor(AddressItem, KeyOf(AddressItem, f).0, KeyOf(AddressItem, f).1);
            slot != NoSlot && slot.field == f
  {
    hide SlotFor, KeyOf;
    if f <= CATEGORY {
      SharedMember(f);
    } else if f <= JOB_TITLE {
      NameMember(f);
    } else if f <= PAGER {
      WorkMember(f);
    } else if f <= DEFAULT_EMAIL {
      HomeMember(f);
    } else {
      PrivateMember(f);
    }
  }

  lemma SharedMember(f: Field)
    requires f <= CATEGORY
    ensures var slot := SlotFor(AddressItem, KeyOf(AddressItem, f).0, KeyOf(AddressItem, f).1);
            slot != NoSlot && slot.field == f
  {
    hide NameText, WorkText, HomeText, PrivateText;
  }

  lemma NameMember(f: Field)
    requires FULL_NAME <= f <= JOB_TITLE
    ensures var slot := SlotFor(AddressItem, KeyOf(AddressItem, f).0, KeyOf(AddressItem, f).1);
            slot != NoSlot && slot.field == f
  {
    hide WorkText, HomeText, PrivateText;
  }

  lemma WorkMember(f: Field)
    requires WORK_PHONE <= f <= PAGER
    ensures var slot := SlotFor(AddressItem, KeyOf(AddressItem, f).0, KeyOf(AddressItem, f).1);
            slot != NoSlot && slot.field == f
  {
    hide HomeText, PrivateText;
  }

  lemma HomeMember(f: Field)
    requires CELLULAR <= f <= DEFAULT_EMAIL
    ensures var slot := SlotFor(AddressItem, KeyOf(AddressItem, f).0, KeyOf(AddressItem, f).1);
            slot != NoSlot && slot.field == f
  {
    hide PrivateText;
  }

  lemma PrivateMember(f: Field)
    requires EMAILS <= f <= GROUP
    ensures var slot := SlotFor(AddressItem, KeyOf(AddressItem, f).0, KeyOf(AddressItem, f).1);
            slot != NoSlot && slot.field == f
  {
  }
}
