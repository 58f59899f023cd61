/** Error model of the RED Brick client: the server's numeric error codes, the
    table that names them, the text of a remote error, and the failures that
    abort a client operation. */
module Errors {

  newtype byte = x: int | 0 <= x < 256

  const E_SUCCESS: nat := 0
  const E_UNKNOWN_ERROR: nat := 1
  const E_INVALID_OPERATION: nat := 2
  const E_OPERATION_ABORTED: nat := 3
  const E_INTERNAL_ERROR: nat := 4
  const E_UNKNOWN_SESSION_ID: nat := 5
  const E_NO_FREE_SESSION_ID: nat := 6
  const E_UNKNOWN_OBJECT_ID: nat := 7
  const E_NO_FREE_OBJECT_ID: nat := 8
  const E_OBJECT_IS_LOCKED: nat := 9
  const E_NO_MORE_DATA: nat := 10
  const E_WRONG_LIST_ITEM_TYPE: nat := 11
  const E_PROGRAM_IS_PURGED: nat := 12
  const E_INVALID_PARAMETER: nat := 128
  const E_NO_FREE_MEMORY: nat := 129
  const E_NO_FREE_SPACE: nat := 130
  const E_ACCESS_DENIED: nat := 131
  const E_ALREADY_EXISTS: nat := 132
  const E_DOES_NOT_EXIST: nat := 133
  const E_INTERRUPTED: nat := 134
  const E_IS_DIRECTORY: nat := 135
  const E_NOT_A_DIRECTORY: nat := 136
  const E_WOULD_BLOCK: nat := 137
  const E_OVERFLOW: nat := 138
  const E_BAD_FILE_DESCRIPTOR: nat := 139
  const E_OUT_OF_RANGE: nat := 140
  const E_NAME_TOO_LONG: nat := 141
  const E_INVALID_SEEK: nat := 142
  const E_NOT_SUPPORTED: nat := 143
  const E_TOO_MANY_OPEN_FILES: nat := 144

  /** The code-to-name table of REDError: the API's own codes, then those that
      mirror system errors. */
  const CodeNames: map<nat, string> := ApiCodeNames + SystemCodeNames

  const ApiCodeNames: map<nat, string> := map[
    E_SUCCESS := "E_SUCCESS",
    E_UNKNOWN_ERROR := "E_UNKNOWN_ERROR",
    E_INVALID_OPERATION := "E_INVALID_OPERATION",
    E_OPERATION_ABORTED := "E_OPERATION_ABORTED",
    E_INTERNAL_ERROR := "E_INTERNAL_ERROR",
    E_UNKNOWN_SESSION_ID := "E_UNKNOWN_SESSION_ID",
    E_NO_FREE_SESSION_ID := "E_NO_FREE_SESSION_ID",
    E_UNKNOWN_OBJECT_ID := "E_UNKNOWN_OBJECT_ID",
    E_NO_FREE_OBJECT_ID := "E_NO_FREE_OBJECT_ID",
    E_OBJECT_IS_LOCKED := "E_OBJECT_IS_LOCKED",
    E_NO_MORE_DATA := "E_NO_MORE_DATA",
    E_WRONG_LIST_ITEM_TYPE := "E_WRONG_LIST_ITEM_TYPE",
    E_PROGRAM_IS_PURGED := "E_PROGRAM_IS_PURGED"
  ]

  const SystemCodeNames: map<nat, string> := map[
    E_INVALID_PARAMETER := "E_INVALID_PARAMETER",
    E_NO_FREE_MEMORY := "E_NO_FREE_MEMORY",
    E_NO_FREE_SPACE := "E_NO_FREE_SPACE",
    E_ACCESS_DENIED := "E_ACCESS_DENIED",
    E_ALREADY_EXISTS := "E_ALREADY_EXISTS",
    E_DOES_NOT_EXIST := "E_DOES_NOT_EXIST",
    E_INTERRUPTED := "E_INTERRUPTED",
    E_IS_DIRECTORY := "E_IS_DIRECTORY",
    E_NOT_A_DIRECTORY := "E_NOT_A_DIRECTORY",
    E_WOULD_BLOCK := "E_WOULD_BLOCK",
    E_OVERFLOW := "E_OVERFLOW",
    E_BAD_FILE_DESCRIPTOR := "E_BAD_FILE_DESCRIPTOR",
    E_OUT_OF_RANGE := "E_OUT_OF_RANGE",
    E_NAME_TOO_LONG := "E_NAME_TOO_LONG",
    E_INVALID_SEEK := "E_INVALID_SEEK",
    E_NOT_SUPPORTED := "E_NOT_SUPPORTED",
    E_TOO_MANY_OPEN_FILES := "E_TOO_MANY_OPEN_FILES"
  ]

  const Unknown: string := "<unknown>"

  /** The object a message names. */
  datatype Noun = StringNoun | ListNoun | FileNoun | DirectoryNoun | ProcessNoun | ProgramNoun

  /** What a 'Cannot <action> unattached <noun> object' message says was refused. */
  datatype Action = UpdateAction | PurgeAction | ReadFromAction | WriteToAction

  /** What a 'Could not <query> <noun> object <id>' message says failed. */
  datatype Query =
    | GetLengthOf | GetInformationFor | GetNameOf | Rewind | GetNextEntryOf | GetCommandOf
    | GetIdentityOf | GetStdioOf | GetStateOf | GetIdentifierOf | GetRootDirectoryOf
    | PurgeQuery | WriteTo | ReadFrom | ReadQuery

  /** The message of a raised error: one of the client's format strings with the
      values it substitutes. Text renders it. */
  datatype Message =
    | CannotDetach
    | Unattached(action: Action, noun: Noun)
    | WriteInProgress
    | UnboundAttach
    | UnknownItemType(listId: nat, tag: nat, index: nat)
    | CreateFailed
    | AllocateFailed
    | QueryFailed(query: Query, noun: Noun, id: nat)
    | ChunkFailed(setting: bool, id: nat, offset: nat)
    | ItemFailed(index: nat, listId: nat)

  function NounText(n: Noun): string
  {
    match n
    case StringNoun => "string"
    case ListNoun => "list"
    case FileNoun => "file"
    case DirectoryNoun => "directory"
    case ProcessNoun => "process"
    case ProgramNoun => "program"
  }

  function ActionText(a: Action): string
  {
    match a
    case UpdateAction => "update"
    case PurgeAction => "purge"
    case ReadFromAction => "read from"
    case WriteToAction => "write to"
  }

  function QueryText(q: Query): string
  {
    match q
    case GetLengthOf => "get length of"
    case GetInformationFor => "get information for"
    case GetNameOf => "get name of"
    case Rewind => "rewind"
    case GetNextEntryOf => "get next entry of"
    case GetCommandOf => "get command of"
    case GetIdentityOf => "get identity of"
    case GetStdioOf => "get stdio of"
    case GetStateOf => "get state of"
    case GetIdentifierOf => "get identifier of"
    case GetRootDirectoryOf => "get root directory of"
    case PurgeQuery => "purge"
    case WriteTo => "write to"
    case ReadFrom => "read from"
    case ReadQuery => "read"
  }

  /** What Python 2 says when the attacher calls REDObject.attach unbound, with the
      object id in the place of self. */
  const UNBOUND_ATTACH_TEXT: string :=
    "unbound method attach() must be called with REDObject instance as first argument (got int instance instead)"

  /** The text of a message, as str.format writes it. */
  function Text(m: Message): (text: string)
    ensures |text| > 0
  {
    match m
    case CannotDetach => "Cannot detach unattached object"
    case Unattached(a, n) => "Cannot " + ActionText(a) + " unattached " + NounText(n) + " object"
    case WriteInProgress => "Another asynchronous write is already in progress"
    case UnboundAttach => UNBOUND_ATTACH_TEXT
    case UnknownItemType(listId, tag, index) =>
      "List object " + Decimal(listId) + " contains item with unknown type " + Decimal(tag) + " at index " + Decimal(index)
    case CreateFailed => "Could not create session"
    case AllocateFailed => "Could not allocate string object"
    case QueryFailed(q, n, id) => "Could not " + QueryText(q) + " " + NounText(n) + " object " + Decimal(id)
    case ChunkFailed(setting, id, offset) =>
      "Could not " + (if setting then "set" else "get") + " chunk of string object " + Decimal(id) + " at offset " + Decimal(offset)
    case ItemFailed(index, listId) => "Could not get item at index " + Decimal(index) + " of list object " + Decimal(listId)
  }

  /** Why a client operation did not complete. */
  datatype Failure =
    | RemoteError(message: Message, code: nat)   // REDError: the server answered with a non-success code
    | RuntimeError(message: Message)             // misuse of a handle (unattached, slot busy)
    | TypeError(message: Message)                // a value of the wrong kind (unknown list item type)
    | TransportError                             // the binding raised: not connected, or no reply in time

  datatype Outcome = Pass | Fail(error: Failure)

  datatype Option<T> = None | Some(value: T)

  datatype Result<T> = Ok(value: T) | Err(error: Failure)

  /** The name REDError.__str__ shows for a code: the table entry, or '<unknown>'. */
  function CodeName(code: nat): (name: string)
    ensures code in CodeNames ==> name == CodeNames[code] && |name| > 2 && name[0] == 'E'
    ensures code !in CodeNames ==> name == Unknown
  {
    if code in CodeNames then CodeNames[code] else Unknown
  }

  /** No table entry reads '<unknown>', so the fallback identifies unnamed codes exactly. */
  lemma UnknownExactlyForUnnamed(code: nat)
    ensures CodeName(code) == Unknown <==> code !in CodeNames
  {
    if code in CodeNames {
      assert CodeNames[code][0] == 'E' != '<';
    }
  }

  function DigitChar(d: nat): char
    requires d < 10
  {
    "0123456789"[d]
  }

  /** Decimal text of a natural number, as Python's str() of an int writes it. */
  function Decimal(n: nat): (s: string)
    ensures |s| >= 1
    ensures forall i :: 0 <= i < |s| ==> '0' <= s[i] <= '9'
    ensures n > 0 ==> s[0] != '0'
  {
    if n < 10 then [DigitChar(n)] else Decimal(n / 10) + [DigitChar(n % 10)]
  }

  /** Reads a string of decimal digits back into the number it denotes. */
  function ParseDecimal(s: string): nat
    requires forall i :: 0 <= i < |s| ==> '0' <= s[i] <= '9'
  {
    if s == [] then 0 else ParseDecimal(s[..|s| - 1]) * 10 + ((s[|s| - 1] as int) - ('0' as int))
  }

  lemma {:induction false} DecimalRoundTrip(n: nat)
    ensures ParseDecimal(Decimal(n)) == n
  {
    var s := Decimal(n);
    if n < 10 {
      assert s[..0] == [];
    } else {
      DecimalRoundTrip(n / 10);
      assert s[..|s| - 1] == Decimal(n / 10);
    }
  }

  /** '<message>: <name> (<digits>)', for any name. */
  function Render(message: string, name: string, code: nat): (text: string)
    ensures |text| > |message| + 2 + |name|
    ensures text[..|message| + 2] == message + ": "
    ensures text[|message| + 2..|message| + 2 + |name|] == name
    ensures text[|message| + 2 + |name|..] == " (" + Decimal(code) + ")"
  {
    var text := message + ": " + name + " (" + Decimal(code) + ")";
    assert text == (message + ": ") + name + (" (" + Decimal(code) + ")");
    text
  }

  /** REDError.__str__: '<message>: <name> (<code>)', the name looked up in the
      table. */
  function ErrorText(message: string, code: nat): (text: string)
    ensures |text| >= |message| + 2
    ensures text[..|message| + 2] == message + ": "
    ensures exists k :: |message| + 2 <= k <= |text| &&
                        text[k..] == " (" + Decimal(code) + ")" &&
                        text[|message| + 2..k] == CodeName(code)
  {
    var name := CodeName(code);
    var text := Render(message, name, code);
    assert |message| + 2 <= |message| + 2 + |name| <= |text|;
    text
  }

  /** The code shown in an error text can be read back from its trailing '(digits)'. */
  lemma CodeReadableFromText(message: string, code: nat)
    ensures var text := ErrorText(message, code);
            var digits := Decimal(code);
            text[|text| - |digits| - 1..|text| - 1] == digits &&
            ParseDecimal(text[|text| - |digits| - 1..|text| - 1]) == code
  {
    var text := ErrorText(message, code);
    var digits := Decimal(code);
    var k :| |message| + 2 <= k <= |text| && text[k..] == " (" + digits + ")" &&
             text[|message| + 2..k] == CodeName(code);
    assert text[|text| - |digits| - 1..|text| - 1] == (" (" + digits + ")")[2..2 + |digits|];
    DecimalRoundTrip(code);
  }
}
