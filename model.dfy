/** Application role connection models: the metadata record types a bot
    registers with the chat platform, their wire encoding, and the limits
    the platform documents for each field. */
module RoleConnectionModel {
  import opened Wrappers

  /** An unsigned byte, the representation the metadata type is
      serialised with. */
  newtype u8 = x: int | 0 <= x < 256

  /** Application Role Connection Metadata Type. */
  datatype MetadataType =
    | IntegerLessThanOrEqual
    | IntegerGreaterThanOrEqual
    | IntegerEqual
    | IntegerNotEqual
    | DatetimeLessThanOrEqual
    | DatetimeGreaterThanOrEqual
    | BooleanEqual
    | BooleanNotEqual

  /** The variants in declaration order. */
  const Declared: seq<MetadataType> := [
    IntegerLessThanOrEqual, IntegerGreaterThanOrEqual, IntegerEqual, IntegerNotEqual,
    DatetimeLessThanOrEqual, DatetimeGreaterThanOrEqual, BooleanEqual, BooleanNotEqual
  ]

  /** The fixed discriminant each variant is serialised as. */
  function ToByte(kind: MetadataType): (b: u8)
    ensures 1 <= b <= 8
  {
    match kind
    case IntegerLessThanOrEqual => 1
    case IntegerGreaterThanOrEqual => 2
    case IntegerEqual => 3
    case IntegerNotEqual => 4
    case DatetimeLessThanOrEqual => 5
    case DatetimeGreaterThanOrEqual => 6
    case BooleanEqual => 7
    case BooleanNotEqual => 8
  }

  /** Deserialising a byte: only the eight discriminants name a variant. */
  function FromByte(b: u8): (r: Option<MetadataType>)
    ensures r.Some? <==> 1 <= b <= 8
    ensures r.Some? ==> ToByte(r.value) == b
  {
    if 1 <= b <= 8 then Some(Declared[b - 1]) else None
  }

  /** The discriminants are 1..8 in declaration order. */
  lemma DiscriminantsFollowDeclarationOrder()
    ensures |Declared| == 8
    ensures forall i :: 0 <= i < |Declared| ==> ToByte(Declared[i]) as int == i + 1
    ensures forall kind: MetadataType :: kind in Declared
  {
    forall kind: MetadataType ensures kind in Declared {
      assert Declared[ToByte(kind) - 1] == kind;
    }
  }

  /** Decoding the encoding of any variant gives that variant back, so no two
      variants share a discriminant. */
  lemma FromByteToByte(kind: MetadataType)
    ensures FromByte(ToByte(kind)) == Some(kind)
    ensures forall other: MetadataType :: ToByte(other) == ToByte(kind) ==> other == kind
  {
    DiscriminantsFollowDeclarationOrder();
  }

  /** A character allowed in a metadata key: a-z, 0-9 or `_`. */
  predicate IsKeyChar(c: char) {
    ('a' <= c <= 'z') || ('0' <= c <= '9') || c == '_'
  }

  /** The documented key limit: only a-z, 0-9 and `_`, at most 50 characters. */
  predicate ValidKey(key: string) {
    |key| <= 50 && forall i :: 0 <= i < |key| ==> IsKeyChar(key[i])
  }

  /** Application Role Connection Metadata Structure. */
  datatype Metadata = Metadata(
    kind: MetadataType,
    key: string,
    name: string,
    nameLocalizations: map<string, string>,
    description: string,
    descriptionLocalizations: map<string, string>)

  /** The documented limits of a metadata record: a valid key, a name of at
      most 100 characters and a description of at most 200. */
  predicate ValidMetadata(m: Metadata) {
    ValidKey(m.key) && |m.name| <= 100 && |m.description| <= 200
  }

  /** User Application Role Connection Structure. */
  datatype RoleConnection<T> = RoleConnection(
    platformName: Option<string>,
    platformUsername: Option<string>,
    metadata: T)

  /** The documented limits of a role connection: platform name at most 50
      characters, platform username at most 100. */
  predicate ValidRoleConnection<T>(rc: RoleConnection<T>) {
    && (rc.platformName.Some? ==> |rc.platformName.value| <= 50)
    && (rc.platformUsername.Some? ==> |rc.platformUsername.value| <= 100)
  }
}
