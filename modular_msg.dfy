/** The control-plane messages: a whole new configuration, or one value for
    one addressed slot of one container of the variable store. */
module ModularMsg {
  import opened Json
  import opened VarTypes

  datatype VarMsg<T> = VarMsg(index: nat, value: T)

  datatype ModularMessage =
    | Config(config: Object)
    | SetScalar(scalar: VarMsg<real>)
    | SetPosition(position: VarMsg<Position>)
    | SetColor(color: VarMsg<Color>)
    | SetRColor(rcolor: VarMsg<RealColor>)
    | SetData(data: VarMsg<Data>)

  /** The five containers of the variable store. */
  datatype Container = Scalars | Positions | Colors | RealColors | DataBuffers

  /** The container a `Set*` message addresses (none for `Config`). */
  function Target(m: ModularMessage): Option<Container> {
    match m
    case Config(_) => None
    case SetScalar(_) => Some(Scalars)
    case SetPosition(_) => Some(Positions)
    case SetColor(_) => Some(Colors)
    case SetRColor(_) => Some(RealColors)
    case SetData(_) => Some(DataBuffers)
  }

  /** The slot index a `Set*` message addresses. */
  function SlotIndex(m: ModularMessage): Option<nat> {
    match m
    case Config(_) => None
    case SetScalar(v) => Some(v.index)
    case SetPosition(v) => Some(v.index)
    case SetColor(v) => Some(v.index)
    case SetRColor(v) => Some(v.index)
    case SetData(v) => Some(v.index)
  }

  /** `f32::into_message`. */
  function ScalarIntoMessage(index: nat, value: real): (m: ModularMessage)
    ensures Target(m) == Some(Scalars) && SlotIndex(m) == Some(index)
    ensures m.scalar.value == value
  {
    SetScalar(VarMsg(index, value))
  }

  /** `Position::into_message`. */
  function PositionIntoMessage(index: nat, value: Position): (m: ModularMessage)
    ensures Target(m) == Some(Positions) && SlotIndex(m) == Some(index)
    ensures m.position.value == value
  {
    SetPosition(VarMsg(index, value))
  }

  /** `Color::into_message`. */
  function ColorIntoMessage(index: nat, value: Color): (m: ModularMessage)
    ensures Target(m) == Some(Colors) && SlotIndex(m) == Some(index)
    ensures m.color.value == value
  {
    SetColor(VarMsg(index, value))
  }

  /** `RealColor::into_message`. */
  function RealColorIntoMessage(index: nat, value: RealColor): (m: ModularMessage)
    ensures Target(m) == Some(RealColors) && SlotIndex(m) == Some(index)
    ensures m.rcolor.value == value
  {
    SetRColor(VarMsg(index, value))
  }

  /** `Data::into_message`. */
  function DataIntoMessage(index: nat, value: Data): (m: ModularMessage)
    ensures Target(m) == Some(DataBuffers) && SlotIndex(m) == Some(index)
    ensures m.data.value == value
  {
    SetData(VarMsg(index, value))
  }

  /** A message determines the index and the value it was built from. */
  lemma IntoMessageInjective(i: nat, j: nat, v: real, w: real, p: Position, q: Position,
                             c: Color, e: Color, rc: RealColor, rd: RealColor, d: Data, f: Data)
    ensures ScalarIntoMessage(i, v) == ScalarIntoMessage(j, w) ==> i == j && v == w
    ensures PositionIntoMessage(i, p) == PositionIntoMessage(j, q) ==> i == j && p == q
    ensures ColorIntoMessage(i, c) == ColorIntoMessage(j, e) ==> i == j && c == e
    ensures RealColorIntoMessage(i, rc) == RealColorIntoMessage(j, rd) ==> i == j && rc == rd
    ensures DataIntoMessage(i, d) == DataIntoMessage(j, f) ==> i == j && d == f
  {
  }

  /** Messages built from different value types target different
      containers, so they never coincide. */
  lemma IntoMessageVariantsDistinct(i: nat, j: nat, v: real, p: Position, c: Color, rc: RealColor, d: Data)
    ensures Target(ScalarIntoMessage(i, v)) != Target(PositionIntoMessage(j, p))
    ensures Target(ScalarIntoMessage(i, v)) != Target(ColorIntoMessage(j, c))
    ensures Target(ScalarIntoMessage(i, v)) != Target(RealColorIntoMessage(j, rc))
    ensures Target(ScalarIntoMessage(i, v)) != Target(DataIntoMessage(j, d))
    ensures Target(PositionIntoMessage(i, p)) != Target(ColorIntoMessage(j, c))
    ensures Target(PositionIntoMessage(i, p)) != Target(RealColorIntoMessage(j, rc))
    ensures Target(PositionIntoMessage(i, p)) != Target(DataIntoMessage(j, d))
    ensures Target(ColorIntoMessage(i, c)) != Target(RealColorIntoMessage(j, rc))
    ensures Target(ColorIntoMessage(i, c)) != Target(DataIntoMessage(j, d))
    ensures Target(RealColorIntoMessage(i, rc)) != Target(DataIntoMessage(j, d))
  {
  }
}
