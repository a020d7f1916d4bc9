/** The rules a conference's data must satisfy before it is stored: a configuration with at
    least one moderator, a schedule the cron parser accepts, chat timings and history of at
    least one, and permission groups whose type is defined and whose every entry names a
    known permission with a value of that permission's type. Every rule is checked and every
    violated one reported. The cron parser and the set of defined permission types are
    parameters; the table of known permissions is given as a map from key to descriptor. */
module ConferenceValidation {
  import opened Common
  import opened PermissionStack

  datatype ChatOptions = ChatOptions(cancelParticipantIsTypingInterval: int, cancelParticipantIsTypingAfter: int,
                                     maxChatMessageHistory: int)

  datatype Configuration = Configuration(moderators: seq<string>, scheduleCron: Option<string>, chat: ChatOptions)

  /** The submitted data; permission groups are keyed by the numeric value of their permission type. */
  datatype ConferenceData = ConferenceData(configuration: Option<Configuration>,
                                           permissions: map<int, map<string, PermissionValue>>)

  /** One reported rule violation. */
  datatype Failure =
    | ConfigurationMissing
    | NoModerators
    | InvalidScheduleCron
    | TypingIntervalTooSmall
    | TypingTimeoutTooSmall
    | HistoryTooSmall
    | UndefinedPermissionType(permissionType: int)
    | UnknownPermissionKey(group: int, key: string)
    | PermissionValueMismatch(group: int, key: string)

  /** The violations of the configuration rules, for a configuration that is present. */
  function ConfigurationFailures(c: Configuration, cronParses: string -> bool): set<Failure>
  {
    (if c.moderators == [] then {NoModerators} else {})
    + (if c.scheduleCron.Some? && !cronParses(c.scheduleCron.value) then {InvalidScheduleCron} else {})
    + (if c.chat.cancelParticipantIsTypingInterval < 1 then {TypingIntervalTooSmall} else {})
    + (if c.chat.cancelParticipantIsTypingAfter < 1 then {TypingTimeoutTooSmall} else {})
    + (if c.chat.maxChatMessageHistory < 1 then {HistoryTooSmall} else {})
  }

  /** The violations of the permission rules. Both entry rules run on every entry, so an
      unknown key is reported twice: as unknown and as not matching any value type. */
  function PermissionFailures(permissions: map<int, map<string, PermissionValue>>, permissionTypes: set<int>,
                              descriptors: map<string, PermissionDescriptor>): set<Failure>
  {
    (set t | t in permissions && t !in permissionTypes :: UndefinedPermissionType(t))
    + (set t, k | t in permissions && k in permissions[t] && k !in descriptors :: UnknownPermissionKey(t, k))
    + (set t, k | t in permissions && k in permissions[t]
                  && !(k in descriptors && ValidateValue(descriptors[k], permissions[t][k]))
                :: PermissionValueMismatch(t, k))
  }

  /** Every violated rule of the data, with a missing configuration reported as such. */
  function Failures(data: ConferenceData, permissionTypes: set<int>, descriptors: map<string, PermissionDescriptor>,
                    cronParses: string -> bool): set<Failure>
  {
    (if data.configuration.None? then {ConfigurationMissing}
     else ConfigurationFailures(data.configuration.value, cronParses))
    + PermissionFailures(data.permissions, permissionTypes, descriptors)
  }

  /** The rules, stated directly. */
  predicate Valid(data: ConferenceData, permissionTypes: set<int>, descriptors: map<string, PermissionDescriptor>,
                  cronParses: string -> bool)
  {
    && data.configuration.Some?
    && data.configuration.value.moderators != []
    && (data.configuration.value.scheduleCron.None? || cronParses(data.configuration.value.scheduleCron.value))
    && data.configuration.value.chat.cancelParticipantIsTypingInterval >= 1
    && data.configuration.value.chat.cancelParticipantIsTypingAfter >= 1
    && data.configuration.value.chat.maxChatMessageHistory >= 1
    && (forall t :: t in data.permissions ==> t in permissionTypes)
    && (forall t, k :: t in data.permissions && k in data.permissions[t] ==>
          k in descriptors && ValidateValue(descriptors[k], data.permissions[t][k]))
  }

  /** A present configuration breaks no rule exactly when it has a moderator, a schedule the
      parser accepts if any, and chat settings of at least one. */
  lemma ConfigurationValidIffNoFailures(c: Configuration, cronParses: string -> bool)
    ensures ConfigurationFailures(c, cronParses) == {}
            <==> && c.moderators != []
                 && (c.scheduleCron.None? || cronParses(c.scheduleCron.value))
                 && c.chat.cancelParticipantIsTypingInterval >= 1
                 && c.chat.cancelParticipantIsTypingAfter >= 1
                 && c.chat.maxChatMessageHistory >= 1
  {
    var fs := ConfigurationFailures(c, cronParses);
    if c.moderators == [] { assert NoModerators in fs; }
    if c.scheduleCron.Some? && !cronParses(c.scheduleCron.value) { assert InvalidScheduleCron in fs; }
    if c.chat.cancelParticipantIsTypingInterval < 1 { assert TypingIntervalTooSmall in fs; }
    if c.chat.cancelParticipantIsTypingAfter < 1 { assert TypingTimeoutTooSmall in fs; }
    if c.chat.maxChatMessageHistory < 1 { assert HistoryTooSmall in fs; }
  }

  /** The permission groups break no rule exactly when every group type is defined and every
      entry names a known permission with a value of its type. */
  lemma PermissionsValidIffNoFailures(permissions: map<int, map<string, PermissionValue>>, permissionTypes: set<int>,
                                      descriptors: map<string, PermissionDescriptor>)
    ensures PermissionFailures(permissions, permissionTypes, descriptors) == {}
            <==> && (forall t :: t in permissions ==> t in permissionTypes)
                 && (forall t, k :: t in permissions && k in permissions[t] ==>
                       k in descriptors && ValidateValue(descriptors[k], permissions[t][k]))
  {
    var fs := PermissionFailures(permissions, permissionTypes, descriptors);
    if !(forall t :: t in permissions ==> t in permissionTypes) {
      var t :| t in permissions && t !in permissionTypes;
      assert UndefinedPermissionType(t) in fs;
    }
    if !(forall t, k :: t in permissions && k in permissions[t] ==>
           k in descriptors && ValidateValue(descriptors[k], permissions[t][k])) {
      var t, k :| t in permissions && k in permissions[t]
                  && !(k in descriptors && ValidateValue(descriptors[k], permissions[t][k]));
      assert PermissionValueMismatch(t, k) in fs;
    }
  }

  /** The data is accepted exactly when every rule holds. */
  lemma ValidIffNoFailures(data: ConferenceData, permissionTypes: set<int>,
                           descriptors: map<string, PermissionDescriptor>, cronParses: string -> bool)
    ensures Valid(data, permissionTypes, descriptors, cronParses)
            <==> Failures(data, permissionTypes, descriptors, cronParses) == {}
  {
    PermissionsValidIffNoFailures(data.permissions, permissionTypes, descriptors);
    if data.configuration.Some? {
      ConfigurationValidIffNoFailures(data.configuration.value, cronParses);
    } else {
      assert ConfigurationMissing in Failures(data, permissionTypes, descriptors, cronParses);
    }
  }

  /** A permission key that is not in the table is reported both as unknown and as having a
      value of the wrong type. */
  lemma UnknownKeyReportedTwice(data: ConferenceData, permissionTypes: set<int>,
                                descriptors: map<string, PermissionDescriptor>, cronParses: string -> bool,
                                t: int, k: string)
    requires t in data.permissions && k in data.permissions[t] && k !in descriptors
    ensures UnknownPermissionKey(t, k) in Failures(data, permissionTypes, descriptors, cronParses)
    ensures PermissionValueMismatch(t, k) in Failures(data, permissionTypes, descriptors, cronParses)
  {
  }

  /** How the validator behaves as written: the rules after the first reach into the
      configuration without a guard, so a missing configuration aborts validation with a
      null dereference instead of being reported. */
  datatype Verdict = Completed(failures: set<Failure>) | NullDereference

  function ValidateAsWritten(data: ConferenceData, permissionTypes: set<int>,
                             descriptors: map<string, PermissionDescriptor>, cronParses: string -> bool): Verdict
  {
    if data.configuration.None? then NullDereference
    else Completed(Failures(data, permissionTypes, descriptors, cronParses))
  }

  /** Data without a configuration, which the first rule exists to report, makes the
      validator as written fail instead of reporting it. */
  lemma MissingConfigurationCrashesAsWritten(permissionTypes: set<int>, descriptors: map<string, PermissionDescriptor>,
                                             cronParses: string -> bool)
    ensures var data := ConferenceData(None, map[]);
      ValidateAsWritten(data, permissionTypes, descriptors, cronParses) == NullDereference
      && Failures(data, permissionTypes, descriptors, cronParses) == {ConfigurationMissing}
  {
    var data := ConferenceData(None, map[]);
    assert PermissionFailures(data.permissions, permissionTypes, descriptors) == {};
  }
}
