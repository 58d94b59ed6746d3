/** Reading the options of an application command: a named option of a
    given type, and the sub-command or sub-command group at the head of the
    option list. Option lookups find the first option with the name and
    report a type mismatch rather than searching on. */
module CommandOptions {
  import opened Wrappers

  /** The value of a command option, by option type. Snowflake ids are
      plain integers here; a number option's value is a real. */
  datatype CommandOptionValue =
    | String(text: string)
    | Integer(integer: int)
    | Boolean(boolean: bool)
    | User(userId: int)
    | Channel(channelId: int)
    | Role(roleId: int)
    | Mentionable(mentionableId: int)
    | Number(number: real)
    | Attachment(attachmentId: int)
    | SubCommand(options: seq<CommandDataOption>)
    | SubCommandGroup(groupOptions: seq<CommandDataOption>)
    | Focused(partial: string)

  datatype CommandDataOption = CommandDataOption(name: string, value: CommandOptionValue)

  /** No option of the name, or the option has another type (the name and
      the type the caller asked for). */
  datatype CommandOptionError = NotFound(name: string) | WrongType(name: string, expected: string)

  /** The index of the first option called `name`. */
  function FirstNamed(options: seq<CommandDataOption>, name: string): (r: Option<nat>)
    ensures r.None? <==> forall i :: 0 <= i < |options| ==> options[i].name != name
    ensures r.Some? ==> (r.value < |options| && options[r.value].name == name
      && forall j :: 0 <= j < r.value ==> options[j].name != name)
  {
    if |options| == 0 then None
    else if options[0].name == name then Some(0)
    else match FirstNamed(options[1..], name)
      case None => None
      case Some(i) => Some(i + 1)
  }

  /** `get_option` for a string option: `name` missing gives `NotFound`;
      otherwise the first option called `name` decides, its string if it
      is one and `WrongType(name, "String")` if not. */
  function GetString(options: seq<CommandDataOption>, name: string): (r: Result<string, CommandOptionError>)
    ensures r == Err(NotFound(name)) <==> forall i :: 0 <= i < |options| ==> options[i].name != name
    ensures r.Ok? <==> exists i :: (0 <= i < |options| && options[i].name == name && options[i].value.String?
      && (forall j :: 0 <= j < i ==> options[j].name != name))
    ensures r.Ok? ==> exists i :: (0 <= i < |options| && options[i].name == name
      && options[i].value == String(r.value))
    ensures r.Ok? ==> FirstNamed(options, name).Some? && options[FirstNamed(options, name).value].value == String(r.value)
    ensures r.Err? ==> r == Err(NotFound(name)) || r == Err(WrongType(name, "String"))
  {
    match FirstNamed(options, name)
    case None => Err(NotFound(name))
    case Some(i) =>
      match options[i].value
      case String(value) => Ok(value)
      case _ => Err(WrongType(name, "String"))
  }

  /** `get_option` for a user option: as for strings, with the `User`
      type; its type mismatch also names `"String"` as the expected type. */
  function GetUser(options: seq<CommandDataOption>, name: string): (r: Result<int, CommandOptionError>)
    ensures r == Err(NotFound(name)) <==> forall i :: 0 <= i < |options| ==> options[i].name != name
    ensures r.Ok? <==> exists i :: (0 <= i < |options| && options[i].name == name && options[i].value.User?
      && (forall j :: 0 <= j < i ==> options[j].name != name))
    ensures r.Ok? ==> exists i :: (0 <= i < |options| && options[i].name == name
      && options[i].value == User(r.value))
    ensures r.Ok? ==> FirstNamed(options, name).Some? && options[FirstNamed(options, name).value].value == User(r.value)
    ensures r.Err? ==> r == Err(NotFound(name)) || r == Err(WrongType(name, "String"))
  {
    match FirstNamed(options, name)
    case None => Err(NotFound(name))
    case Some(i) =>
      match options[i].value
      case User(value) => Ok(value)
      case _ => Err(WrongType(name, "String"))
  }

  /** `get_subcommand`: only the first option is inspected; it must be a
      sub-command, whose name and nested options are returned. */
  function GetSubcommand(options: seq<CommandDataOption>): (r: Result<(string, seq<CommandDataOption>), CommandOptionError>)
    ensures |options| == 0 <==> r == Err(NotFound("subcommand"))
    ensures r.Ok? <==> |options| > 0 && options[0].value.SubCommand?
    ensures r.Ok? ==> options[0] == CommandDataOption(r.value.0, SubCommand(r.value.1))
    ensures r.Err? && |options| > 0 ==> r == Err(WrongType("subcommand", "SubCommand"))
  {
    if |options| == 0 then Err(NotFound("subcommand"))
    else match options[0].value
      case SubCommand(nested) => Ok((options[0].name, nested))
      case _ => Err(WrongType("subcommand", "SubCommand"))
  }

  /** `get_subcommand_group`: the same, for a sub-command group. */
  function GetSubcommandGroup(options: seq<CommandDataOption>): (r: Result<(string, seq<CommandDataOption>), CommandOptionError>)
    ensures |options| == 0 <==> r == Err(NotFound("subcommand group"))
    ensures r.Ok? <==> |options| > 0 && options[0].value.SubCommandGroup?
    ensures r.Ok? ==> options[0] == CommandDataOption(r.value.0, SubCommandGroup(r.value.1))
    ensures r.Err? && |options| > 0 ==> r == Err(WrongType("subcommand group", "SubCommandGroup"))
  {
    if |options| == 0 then Err(NotFound("subcommand group"))
    else match options[0].value
      case SubCommandGroup(nested) => Ok((options[0].name, nested))
      case _ => Err(WrongType("subcommand group", "SubCommandGroup"))
  }

  /** Options before the first one called `name` and options after it do
      not affect a lookup of `name`. */
  lemma {:induction false} LookupSeesOnlyFirstNamed(before: seq<CommandDataOption>, option: CommandDataOption,
                                                   after: seq<CommandDataOption>)
    requires forall i :: 0 <= i < |before| ==> before[i].name != option.name
    ensures GetString(before + [option] + after, option.name) == GetString([option], option.name)
    ensures GetUser(before + [option] + after, option.name) == GetUser([option], option.name)
  {
    var options := before + [option] + after;
    assert options[|before|] == option;
    assert forall j :: 0 <= j < |before| ==> options[j] == before[j];
    assert FirstNamed(options, option.name) == Some(|before|) by {
      FirstNamedIs(options, option.name, |before|);
    }
  }

  /** The first option called `name` is the one at `i` when `i` holds that
      name and no earlier option does. */
  lemma {:induction false} FirstNamedIs(options: seq<CommandDataOption>, name: string, i: nat)
    requires i < |options| && options[i].name == name
    requires forall j :: 0 <= j < i ==> options[j].name != name
    ensures FirstNamed(options, name) == Some(i)
  {
    if i > 0 {
      FirstNamedIs(options[1..], name, i - 1);
    }
  }

  /** A first option of another type hides a later option of the right
      type with the same name. */
  lemma ShadowedMatch(name: string, first: CommandOptionValue, text: string, id: int)
    requires !first.String? && !first.User?
    ensures GetString([CommandDataOption(name, first), CommandDataOption(name, String(text))], name)
      == Err(WrongType(name, "String"))
    ensures GetUser([CommandDataOption(name, first), CommandDataOption(name, User(id))], name)
      == Err(WrongType(name, "String"))
  {
  }

  /** No option is both a string and a user: at most one of the two
      lookups of a name succeeds, and both agree when the name is absent. */
  lemma LookupsExclusive(options: seq<CommandDataOption>, name: string)
    ensures !(GetString(options, name).Ok? && GetUser(options, name).Ok?)
    ensures GetString(options, name) == Err(NotFound(name)) <==> GetUser(options, name) == Err(NotFound(name))
  {
  }

  /** Only the head of the list matters to either sub-command lookup. */
  lemma SubcommandSeesOnlyHead(option: CommandDataOption, rest: seq<CommandDataOption>)
    ensures GetSubcommand([option] + rest) == GetSubcommand([option])
    ensures GetSubcommandGroup([option] + rest) == GetSubcommandGroup([option])
  {
  }

  /** A sub-command is never a sub-command group: at most one of the two
      lookups succeeds on a list. */
  lemma SubcommandKindsExclusive(options: seq<CommandDataOption>)
    ensures !(GetSubcommand(options).Ok? && GetSubcommandGroup(options).Ok?)
  {
  }
}
