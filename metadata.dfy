/** The role-connection metadata this bot publishes: the per-user values
    and the constant schema registered with the chat platform. */
module RoleConnectionMetadata {
  import opened RoleConnectionModel

  /** The per-user values behind the three metadata fields; `joined` is a
      point in time in whole seconds. */
  datatype RoleConnectionData = RoleConnectionData(scratcher: bool, followers: int, joined: int)

  /** A value as the serialised `RoleConnectionData` object carries it. */
  datatype FieldValue = Bool(b: bool) | Integer(i: int) | Datetime(t: int)

  /** The derived serialisation of `RoleConnectionData`: one entry per
      struct field, under the field's name. */
  function Serialize(d: RoleConnectionData): (m: map<string, FieldValue>)
    ensures m.Keys == {"scratcher", "followers", "joined"}
  {
    map["scratcher" := Bool(d.scratcher), "followers" := Integer(d.followers), "joined" := Datetime(d.joined)]
  }

  /** The serialised object determines the data it came from. */
  lemma SerializeIsInjective(d1: RoleConnectionData, d2: RoleConnectionData)
    requires Serialize(d1) == Serialize(d2)
    ensures d1 == d2
  {
    assert Serialize(d1)["followers"] == Serialize(d2)["followers"];
    assert Serialize(d1)["joined"] == Serialize(d2)["joined"];
    assert Serialize(d1)["scratcher"] == Serialize(d2)["scratcher"];
  }

  /** Which serialised values a metadata type compares against. */
  predicate Accepts(kind: MetadataType, v: FieldValue) {
    match kind
    case IntegerLessThanOrEqual | IntegerGreaterThanOrEqual | IntegerEqual | IntegerNotEqual => v.Integer?
    case DatetimeLessThanOrEqual | DatetimeGreaterThanOrEqual => v.Datetime?
    case BooleanEqual | BooleanNotEqual => v.Bool?
  }

  /** The schema entry for `scratcher`. */
  const ScratcherField := Metadata(
    BooleanEqual,
    "scratcher",
    "Scratcher",
    map[],
    "At least one of the user's accounts has the Scratcher status",
    map["pl" := "Co najmniej jedno konto użytkownika ma status Scratchera"])

  /** The schema entry for `followers`. */
  const FollowersField := Metadata(
    IntegerGreaterThanOrEqual,
    "followers",
    "Followers",
    map["pl" := "Śledzący"],
    "The highest number of followers among the user's accounts",
    map["pl" := "Największa liczba śledzących ze wszystkich kont użytkownika"])

  /** The schema entry for `joined`. */
  const JoinedField := Metadata(
    DatetimeGreaterThanOrEqual,
    "joined",
    "Joined",
    map["pl" := "Data dołączenia"],
    "Creation date of the user's oldest account",
    map["pl" := "Data założenia najstarszego konta użytkownika"])

  /** The schema registered with the chat platform: the three fields in
      this order, with these keys and types. */
  function MetadataSchema(): (schema: seq<Metadata>)
    ensures |schema| == 3
    ensures schema[0].key == "scratcher" && schema[0].kind == BooleanEqual
    ensures schema[1].key == "followers" && schema[1].kind == IntegerGreaterThanOrEqual
    ensures schema[2].key == "joined" && schema[2].kind == DatetimeGreaterThanOrEqual
  {
    [ScratcherField, FollowersField, JoinedField]
  }

  /** Every entry meets the documented limits, and the keys are pairwise
      distinct. */
  lemma SchemaWithinLimits()
    ensures forall i :: 0 <= i < |MetadataSchema()| ==> ValidMetadata(MetadataSchema()[i])
    ensures forall i, j :: 0 <= i < j < |MetadataSchema()| ==> MetadataSchema()[i].key != MetadataSchema()[j].key
  {
    assert ValidMetadata(ScratcherField) by {
      assert forall i :: 0 <= i < |ScratcherField.key| ==> IsKeyChar(ScratcherField.key[i]);
    }
    assert ValidMetadata(FollowersField) by {
      assert forall i :: 0 <= i < |FollowersField.key| ==> IsKeyChar(FollowersField.key[i]);
    }
    assert ValidMetadata(JoinedField) by {
      assert forall i :: 0 <= i < |JoinedField.key| ==> IsKeyChar(JoinedField.key[i]);
    }
  }

  /** Only the `followers` and `joined` names are translated, into Polish;
      every description is. */
  lemma SchemaLocalizations()
    ensures MetadataSchema()[0].nameLocalizations == map[]
    ensures MetadataSchema()[1].nameLocalizations.Keys == {"pl"} && MetadataSchema()[2].nameLocalizations.Keys == {"pl"}
    ensures forall i :: 0 <= i < |MetadataSchema()| ==> MetadataSchema()[i].descriptionLocalizations.Keys == {"pl"}
  {
  }

  /** The schema describes exactly the serialised fields of
      `RoleConnectionData`: every key is a field, every field has a key, and
      each entry's type compares against the kind of value that field holds. */
  lemma SchemaMatchesData(d: RoleConnectionData)
    ensures (set m | m in MetadataSchema() :: m.key) == Serialize(d).Keys
    ensures forall m :: m in MetadataSchema() ==> m.key in Serialize(d) && Accepts(m.kind, Serialize(d)[m.key])
  {
    var schema := MetadataSchema();
    assert schema == [schema[0], schema[1], schema[2]];
    assert (set m | m in schema :: m.key) == {schema[0].key, schema[1].key, schema[2].key};
  }
}
