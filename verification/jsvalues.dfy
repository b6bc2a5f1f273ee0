/** The loosely typed JavaScript values a speed-test result record is made of,
    the record itself, and the vocabulary both result validators share:
    the fields they check, the messages they produce, and a field-by-field
    statement of what each validator accepts, written over the shape of
    the value rather than over the checks the code performs. */
module JsValues {

  import Support

  /** A JavaScript number: finite, one of the two infinities, or NaN. */
  datatype JsNumber = Finite(r: real) | PosInfinity | NegInfinity | NotANumber

  datatype JsValue =
    | Undefined
    | Null
    | Bool(b: bool)
    | Num(n: JsNumber)
    | Str(s: string)
    | Object   // any object, arrays included
    | Other    // functions and symbols: truthy, and `typeof` is neither object, string nor number

  /** The answers `typeof` can give for these values. */
  datatype TypeTag = TUndefined | TObject | TBoolean | TNumber | TString | TFunction

  /** JavaScript's ToBoolean: what `if (v)` and `!v` test. */
  predicate Truthy(v: JsValue)
  {
    match v
    case Undefined => false
    case Null => false
    case Bool(b) => b
    case Num(n) => n != Finite(0.0) && n != NotANumber
    case Str(s) => s != ""
    case Object => true
    case Other => true
  }

  /** The `typeof` operator; `typeof null` is "object". */
  function TypeOf(v: JsValue): TypeTag
  {
    match v
    case Undefined => TUndefined
    case Null => TObject
    case Bool(_) => TBoolean
    case Num(_) => TNumber
    case Str(_) => TString
    case Object => TObject
    case Other => TFunction
  }

  /** The global `isNaN`, applied to a value already known to be a number. */
  predicate IsNaN(n: JsNumber)
  {
    n.NotANumber?
  }

  /** `n < 0` on a number. */
  predicate LessThanZero(n: JsNumber)
  {
    (n.Finite? && n.r < 0.0) || n.NegInfinity?
  }

  /** The result record as the validators and the stores receive it. */
  datatype Record = Record(
    server_name: JsValue,
    server_url: JsValue,
    download_speed: JsValue,
    upload_speed: JsValue,
    ping: JsValue,
    jitter: JsValue,
    server_info: JsValue)

  /** The fields the validators check, in the order they check them. */
  datatype Field = ServerName | ServerUrl | DownloadSpeed | UploadSpeed | Ping | Jitter | ServerInfo

  function Rank(f: Field): nat
  {
    match f
    case ServerName => 0
    case ServerUrl => 1
    case DownloadSpeed => 2
    case UploadSpeed => 3
    case Ping => 4
    case Jitter => 5
    case ServerInfo => 6
  }

  function FieldValue(r: Record, f: Field): JsValue
  {
    match f
    case ServerName => r.server_name
    case ServerUrl => r.server_url
    case DownloadSpeed => r.download_speed
    case UploadSpeed => r.upload_speed
    case Ping => r.ping
    case Jitter => r.jitter
    case ServerInfo => r.server_info
  }

  predicate IsMeasurement(f: Field)
  {
    f == DownloadSpeed || f == UploadSpeed || f == Ping || f == Jitter
  }

  function FieldName(f: Field): string
  {
    match f
    case ServerName => "server_name"
    case ServerUrl => "server_url"
    case DownloadSpeed => "download_speed"
    case UploadSpeed => "upload_speed"
    case Ping => "ping"
    case Jitter => "jitter"
    case ServerInfo => "server_info"
  }

  /** What a validation message complains about. */
  datatype Problem =
    | NotNonEmptyString      // "必须是字符串且不能为空"
    | NotNonNegativeOrEmpty  // "必须是非负数或为空" (the lenient validator)
    | Missing                // "不能为空" (the strict validator)
    | NotNonNegative         // "必须是非负数" (the strict validator)
    | NotObject              // "必须是对象"

  datatype Message = Message(field: Field, problem: Problem)

  function ProblemText(p: Problem): string
  {
    match p
    case NotNonEmptyString => "必须是字符串且不能为空"
    case NotNonNegativeOrEmpty => "必须是非负数或为空"
    case Missing => "不能为空"
    case NotNonNegative => "必须是非负数"
    case NotObject => "必须是对象"
  }

  /** The message text the validators push, e.g. "ping 不能为空". */
  function MessageText(m: Message): string
  {
    FieldName(m.field) + " " + ProblemText(m.problem)
  }

  function MessageTexts(ms: seq<Message>): (ts: seq<string>)
    ensures |ts| == |ms|
    ensures forall i :: 0 <= i < |ms| ==> ts[i] == MessageText(ms[i])
  {
    if ms == [] then [] else [MessageText(ms[0])] + MessageTexts(ms[1..])
  }

  /** The validators' result object `{ isValid, errors }`. */
  datatype Validation = Validation(isValid: bool, errors: seq<Message>)

  /** Some message of `errors` is about field `f`. */
  predicate Flags(errors: seq<Message>, f: Field)
  {
    exists i :: 0 <= i < |errors| && errors[i].field == f
  }

  /** The messages come in the validators' field order, at most one per field. */
  predicate InFieldOrder(errors: seq<Message>)
  {
    forall i, j :: 0 <= i < j < |errors| ==> Rank(errors[i].field) < Rank(errors[j].field)
  }

  // Reference predicates: what each rule accepts, by the shape of the value.

  /** A string with at least one character (the only truthy strings). */
  predicate NonEmptyString(v: JsValue)
  {
    v.Str? && v.s != ""
  }

  /** `undefined` or `null`. */
  predicate Absent(v: JsValue)
  {
    v.Undefined? || v.Null?
  }

  /** A number that is neither NaN nor below zero; +Infinity is one. */
  predicate NonNegativeNumber(v: JsValue)
  {
    v.Num? && (v.n.PosInfinity? || (v.n.Finite? && v.n.r >= 0.0))
  }

  /** An object, or one of JavaScript's falsy values. */
  predicate ObjectOrFalsy(v: JsValue)
  {
    || v.Object?
    || v.Undefined?
    || v.Null?
    || v == Bool(false)
    || v == Num(Finite(0.0))
    || v == Num(NotANumber)
    || v == Str("")
  }

  // How both validators assemble their message list.

  /** The order in which both validators check the fields. */
  const CheckOrder: seq<Field> := [ServerName, ServerUrl, DownloadSpeed, UploadSpeed, Ping, Jitter, ServerInfo]

  /** `checks[k]` is the outcome of checking `fields[k]`: no message, or one
      message about that field. */
  predicate Aligned(checks: seq<seq<Message>>, fields: seq<Field>)
  {
    && |checks| == |fields|
    && forall k :: 0 <= k < |checks| ==> checks[k] == [] || (|checks[k]| == 1 && checks[k][0].field == fields[k])
  }

  /** The messages of all checks, one check after the other: the list the
      validators build with `errors.push`. */
  function Flatten(checks: seq<seq<Message>>): seq<Message>
  {
    if checks == [] then [] else checks[0] + Flatten(checks[1..])
  }

  lemma FlagsOfConcat(a: seq<Message>, b: seq<Message>, f: Field)
    ensures Flags(a + b, f) <==> Flags(a, f) || Flags(b, f)
  {
    if Flags(a + b, f) {
      var i :| 0 <= i < |a + b| && (a + b)[i].field == f;
      if i >= |a| { assert b[i - |a|].field == f; }
    }
    if Flags(a, f) {
      var i :| 0 <= i < |a| && a[i].field == f;
      assert (a + b)[i].field == f;
    }
    if Flags(b, f) {
      var i :| 0 <= i < |b| && b[i].field == f;
      assert (a + b)[|a| + i].field == f;
    }
  }

  /** A field is flagged exactly when one of its checks produced a message. */
  lemma {:induction false} FlattenFlags(checks: seq<seq<Message>>, fields: seq<Field>, f: Field)
    requires Aligned(checks, fields)
    ensures Flags(Flatten(checks), f) <==> exists k :: 0 <= k < |fields| && fields[k] == f && checks[k] != []
  {
    if checks != [] {
      FlattenFlags(checks[1..], fields[1..], f);
      FlagsOfConcat(checks[0], Flatten(checks[1..]), f);
      if checks[0] != [] {
        assert checks[0][0].field == fields[0];
      }
      if exists k :: 0 <= k < |fields| && fields[k] == f && checks[k] != [] {
        var k :| 0 <= k < |fields| && fields[k] == f && checks[k] != [];
        if k > 0 {
          assert fields[1..][k - 1] == f && checks[1..][k - 1] != [];
        } else {
          assert checks[0][0].field == f;
        }
      }
      if Flags(Flatten(checks[1..]), f) {
        var k :| 0 <= k < |fields[1..]| && fields[1..][k] == f && checks[1..][k] != [];
        assert fields[k + 1] == f && checks[k + 1] != [];
      }
    }
  }

  /** Every message is the single message of one of the checks. */
  lemma {:induction false} FlattenMembers(checks: seq<seq<Message>>, fields: seq<Field>)
    requires Aligned(checks, fields)
    ensures forall i :: 0 <= i < |Flatten(checks)| ==>
      exists k :: 0 <= k < |checks| && checks[k] == [Flatten(checks)[i]] && fields[k] == Flatten(checks)[i].field
  {
    if checks != [] {
      FlattenMembers(checks[1..], fields[1..]);
      var head: seq<Message>, rest: seq<Message> := checks[0], Flatten(checks[1..]);
      assert Flatten(checks) == head + rest;
      forall i | 0 <= i < |Flatten(checks)|
        ensures exists k :: 0 <= k < |checks| && checks[k] == [Flatten(checks)[i]] && fields[k] == Flatten(checks)[i].field
      {
        if i < |head| {
          assert Flatten(checks)[i] == head[0];
          assert checks[0] == [Flatten(checks)[i]] && fields[0] == Flatten(checks)[i].field;
        } else {
          assert Flatten(checks)[i] == rest[i - |head|];
          var k :| 0 <= k < |checks[1..]| && checks[1..][k] == [rest[i - |head|]] && fields[1..][k] == rest[i - |head|].field;
          assert checks[k + 1] == [Flatten(checks)[i]] && fields[k + 1] == Flatten(checks)[i].field;
        }
      }
    } else {
      assert Flatten(checks) == [];
    }
  }

  /** Checking fields in increasing rank gives messages in field order. */
  lemma {:induction false} FlattenInOrder(checks: seq<seq<Message>>, fields: seq<Field>)
    requires Aligned(checks, fields)
    requires forall i, j :: 0 <= i < j < |fields| ==> Rank(fields[i]) < Rank(fields[j])
    ensures InFieldOrder(Flatten(checks))
  {
    if checks != [] {
      FlattenInOrder(checks[1..], fields[1..]);
      FlattenMembers(checks[1..], fields[1..]);
      var head: seq<Message>, rest: seq<Message> := checks[0], Flatten(checks[1..]);
      assert Flatten(checks) == head + rest;
      forall j | 0 <= j < |rest| && head != [] ensures Rank(head[0].field) < Rank(rest[j].field) {
        var k :| 0 <= k < |checks[1..]| && checks[1..][k] == [rest[j]] && fields[1..][k] == rest[j].field;
        assert fields[k + 1] == rest[j].field;
      }
      OrderedCons(head, rest);
    }
  }

  /** At most one message put before messages of later fields keeps field order. */
  lemma OrderedCons(head: seq<Message>, rest: seq<Message>)
    requires |head| <= 1 && InFieldOrder(rest)
    requires forall j :: 0 <= j < |rest| && head != [] ==> Rank(head[0].field) < Rank(rest[j].field)
    ensures InFieldOrder(head + rest)
  {
    forall i, j | 0 <= i < j < |head + rest|
      ensures Rank((head + rest)[i].field) < Rank((head + rest)[j].field)
    {
      assert (head + rest)[j] == rest[j - |head|];
      if i >= |head| {
        assert (head + rest)[i] == rest[i - |head|];
      }
    }
  }

  /** What the gathered checks of a whole record amount to: each field is
      flagged exactly when its check complains, the messages come in field
      order, and each is the message its own check produced. */
  lemma GatheredChecks(checks: seq<seq<Message>>)
    requires Aligned(checks, CheckOrder)
    ensures forall f :: Flags(Flatten(checks), f) <==> checks[Rank(f)] != []
    ensures InFieldOrder(Flatten(checks))
    ensures forall i :: 0 <= i < |Flatten(checks)| ==> checks[Rank(Flatten(checks)[i].field)] == [Flatten(checks)[i]]
  {
    FlattenInOrder(checks, CheckOrder);
    FlattenMembers(checks, CheckOrder);
    forall f ensures Flags(Flatten(checks), f) <==> checks[Rank(f)] != [] {
      FlattenFlags(checks, CheckOrder, f);
      assert CheckOrder[Rank(f)] == f;
    }
    forall i | 0 <= i < |Flatten(checks)|
      ensures checks[Rank(Flatten(checks)[i].field)] == [Flatten(checks)[i]]
    {
      var k :| 0 <= k < |checks| && checks[k] == [Flatten(checks)[i]] && CheckOrder[k] == Flatten(checks)[i].field;
      assert Rank(CheckOrder[k]) == k;
    }
  }

  // The persisted form, shared by both stores.

  /** How `server_info` is written: the empty object `{}` (`'{}'` as JSON
      text) for a falsy value, otherwise the value itself serialised. */
  datatype StoredInfo = EmptyObject | Serialized(v: JsValue)

  /** A row of the `speedtest_results` table. */
  datatype Row = Row(
    id: nat,
    server_name: JsValue,
    server_url: JsValue,
    test_timestamp: int,
    download_speed: JsValue,
    upload_speed: JsValue,
    ping: JsValue,
    jitter: JsValue,
    server_info: StoredInfo)

  /** The row a save writes for `r` under `id` at time `now`. */
  function RowOf(id: nat, r: Record, now: int): Row
  {
    Row(id, r.server_name, r.server_url, now, r.download_speed, r.upload_speed, r.ping, r.jitter,
        if Truthy(r.server_info) then Serialized(r.server_info) else EmptyObject)
  }

  /** The record a row holds, reading the stored `{}` back as an object. */
  function RecordOf(row: Row): Record
  {
    Record(row.server_name, row.server_url, row.download_speed, row.upload_speed, row.ping, row.jitter,
           match row.server_info case EmptyObject => Object case Serialized(v) => v)
  }

  /** What `saveResult` gives its caller: the new id, or the error it throws. */
  datatype SaveOutcome = Saved(id: nat) | Thrown(message: string)

  const NotInitializedText: string := "数据库连接未初始化"

  /** The error `saveResult` throws for a record that fails validation. */
  function ValidationFailedText(errors: seq<Message>): string
  {
    "数据验证失败: " + Support.Join(MessageTexts(errors), ", ")
  }

  /** Every row satisfies `admitted`; ids increase along the table and stay below `nextId`. */
  predicate WellNumbered(rows: seq<Row>, nextId: nat, admitted: Row -> bool)
  {
    && (forall i :: 0 <= i < |rows| ==> rows[i].id < nextId && admitted(rows[i]))
    && (forall i, j :: 0 <= i < j < |rows| ==> rows[i].id < rows[j].id)
  }

  /** A row appended under `nextId` keeps the table well numbered. */
  lemma AppendWellNumbered(rows: seq<Row>, nextId: nat, admitted: Row -> bool, row: Row)
    requires WellNumbered(rows, nextId, admitted) && row.id == nextId && admitted(row)
    ensures WellNumbered(rows + [row], nextId + 1, admitted)
  {
  }
}
