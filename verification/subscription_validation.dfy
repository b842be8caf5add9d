/**
 * SubscriptionValidatingInterceptor: the checks a Subscription must pass before it
 * is stored, each failure an UnprocessableEntityException with its own message code.
 * What the server's collaborators answer (canonicalizer, topic lookup, query
 * validator, strategy evaluator, partition helper, URI parser, content types) is
 * given as an Environment.
 */
module SubscriptionValidation {
  import opened Wrappers
  import opened JavaStrings

  /** Msg.code(n): "HAPI-" and the code left-padded to four digits, then ": ". */
  function MsgCode(code: nat): (r: string)
    requires code < 10000
    ensures |r| == 11 && r[..5] == "HAPI-" && r[9..] == ": "
  {
    "HAPI-" + [Digit(code / 1000), Digit(code / 100 % 10), Digit(code / 10 % 10), Digit(code % 10)] + ": "
  }

  function Digit(d: nat): char
    requires d < 10
  {
    "0123456789"[d]
  }

  /** The text of code 16. */
  const NO_ENDPOINT_TEXT: string := "No endpoint defined for message subscription"
  /** The text of code 19, followed by the endpoint. */
  const INVALID_URI_TEXT: string := "Invalid subscription endpoint uri "
  /** The text of code 17. */
  const CHANNEL_PROTOCOL_TEXT: string := "Only 'channel' protocol is supported for Subscriptions with channel type 'message'"
  /** The text of code 18. */
  const CHANNEL_NAME_TEXT: string := "A channel name must appear after channel: in a message Subscription endpoint"
  /** The text of code 1985, followed by the payload. */
  const INVALID_PAYLOAD_TEXT: string := "Invalid value for Subscription.channel.payload: "
  /** The text of code 21. */
  const REST_HOOK_ENDPOINT_TEXT: string := "Rest-hook subscriptions must have Subscription.channel.endpoint defined"
  /** The text of code 20. */
  const CHANNEL_TYPE_TEXT: string := "Subscription.channel.type must be populated"
  /** The text of code 2009. */
  const CROSS_PARTITION_DISABLED_TEXT: string := "Cross partition subscription is not enabled on this server"
  /** The text of code 2010. */
  const CROSS_PARTITION_DEFAULT_TEXT: string := "Cross partition subscription must be created on the default partition"
  /** The text of code 2322, followed by the topic. */
  const NO_TOPIC_TEXT: string := "No SubscriptionTopic exists with topic: "
  /** The text of code 9, followed by the criteria and the inner message. */
  const INVALID_CRITERIA_TEXT: string := "Invalid subscription criteria submitted: "
  /** The text of code 2267, followed by the pointcut. */
  const POINTCUT_TEXT: string := "Expected Pointcut to be either STORAGE_PRESTORAGE_RESOURCE_CREATED or STORAGE_PRESTORAGE_RESOURCE_UPDATED but was: "
  /** The text of code 8. */
  const STATUS_TEXT: string := "Can not process submitted Subscription - Subscription.status must be populated on this server"
  /** The text of code 10. */
  const CHANNEL_TYPE_ON_SERVER_TEXT: string := "Subscription.channel.type must be populated on this server"

  /** Why a submission is refused. */
  datatype Rejection =
    | Unprocessable(code: int, text: string)  // UnprocessableEntityException(Msg.code(code) + text)
    | NullPointer                             // dereferencing a partition the helper did not find
    | Raised(message: string)                 // an exception a collaborator throws, passed through
  {
    predicate HasCode(c: int) { Unprocessable? && code == c }
  }

  datatype Pointcut =
    | STORAGE_PRESTORAGE_RESOURCE_CREATED
    | STORAGE_PRESTORAGE_RESOURCE_UPDATED
    | OtherPointcut(name: string)
  {
    function Name(): string
    {
      match this
      case STORAGE_PRESTORAGE_RESOURCE_CREATED => "STORAGE_PRESTORAGE_RESOURCE_CREATED"
      case STORAGE_PRESTORAGE_RESOURCE_UPDATED => "STORAGE_PRESTORAGE_RESOURCE_UPDATED"
      case OtherPointcut(n) => n
    }
  }

  datatype Status = REQUESTED | ACTIVE | ERROR | OFF | NULL
  datatype ChannelType = RESTHOOK | WEBSOCKET | EMAIL | SMS | MESSAGE
  datatype SubscriptionMatchingStrategy = IN_MEMORY | DATABASE | TOPIC

  /** The parts of CanonicalSubscription the checks read; null fields are None. */
  datatype CanonicalSubscription = CanonicalSubscription(
    status: Option<Status>,
    isTopicSubscription: bool,
    topic: Option<string>,
    criteriaString: Option<string>,
    payloadSearchCriteria: Option<string>,
    channelType: Option<ChannelType>,
    endpointUrl: Option<string>,
    payloadString: Option<string>)

  /** A RequestPartitionId; only whether it is the default partition matters here. */
  datatype PartitionId = PartitionId(isDefaultPartition: bool)

  /** A parsed java.net.URI. */
  datatype Uri = Uri(scheme: Option<string>, schemeSpecificPart: string)

  /** The submitted request: a SystemRequestDetails or some other kind. */
  datatype RequestDetails = RequestDetails(isSystemRequest: bool)

  /** The answers of the interceptor's collaborators for one submission. */
  datatype Environment = Environment(
    resourceType: string,                                         // FhirContext.getResourceType
    canonicalize: Result<CanonicalSubscription, string>,          // InternalErrorException message on failure
    fhirVersionIsR4: bool,
    topicFound: bool,                                             // a SubscriptionTopic with the topic URL exists
    validateQuery: (Option<string>, string) -> Option<Rejection>, // SubscriptionQueryValidator.validateCriteria
    determineStrategy: Result<SubscriptionMatchingStrategy, string>, // InvalidRequest/DataFormat message on failure
    onlyAllowInMemorySubscriptions: bool,
    crossPartitionSubscriptionEnabled: bool,
    determinedPartition: Option<PartitionId>,                     // determinePartition; None is null
    parseUri: string -> Result<Uri, string>,                      // URISyntaxException on failure
    knownContentType: string -> bool)                             // EncodingEnum.forContentType != null

  /** HapiExtensions.EXT_SUBSCRIPTION_PAYLOAD_SEARCH_CRITERIA; HapiExtensions is not part of this model. */
  const EXT_SUBSCRIPTION_PAYLOAD_SEARCH_CRITERIA: string

  const IN_MEMORY_ONLY_TEXT: string :=
    "This server is configured to only allow in-memory subscriptions. This subscription's criteria cannot be evaluated in-memory."

  /** The submitted Subscription resource: its cross-partition marker and its matching-strategy tag. */
  class SubmittedSubscription {
    const isCrossPartition: bool
    var matchingStrategyTag: Option<SubscriptionMatchingStrategy>

    constructor (isCrossPartition: bool, tag: Option<SubscriptionMatchingStrategy>)
      ensures this.isCrossPartition == isCrossPartition && matchingStrategyTag == tag
    {
      this.isCrossPartition := isCrossPartition;
      matchingStrategyTag := tag;
    }
  }

  /**
   * validateMessageSubscriptionEndpoint: a message channel needs an endpoint that
   * parses as a URI with scheme "channel" and a non-blank channel name after it.
   */
  function ValidateMessageSubscriptionEndpoint(endpointUrl: Option<string>, env: Environment): (r: Option<Rejection>)
    ensures endpointUrl.None? ==> r == Some(Unprocessable(16, NO_ENDPOINT_TEXT))
    ensures endpointUrl.Some? && env.parseUri(endpointUrl.value).Failure? ==>
              r == Some(Unprocessable(19, INVALID_URI_TEXT + endpointUrl.value))
    ensures endpointUrl.Some? && env.parseUri(endpointUrl.value).Success? ==>
              var uri := env.parseUri(endpointUrl.value).value;
              && (uri.scheme != Some("channel") ==> r.Some? && r.value.HasCode(17))
              && (uri.scheme == Some("channel") && IsBlank(Some(uri.schemeSpecificPart)) ==> r.Some? && r.value.HasCode(18))
    ensures r.None? <==> endpointUrl.Some? && env.parseUri(endpointUrl.value).Success?
                         && env.parseUri(endpointUrl.value).value.scheme == Some("channel")
                         && !IsBlank(Some(env.parseUri(endpointUrl.value).value.schemeSpecificPart))
  {
    if endpointUrl.None? then Some(Unprocessable(16, NO_ENDPOINT_TEXT))
    else
      match env.parseUri(endpointUrl.value)
      case Failure(_) => Some(Unprocessable(19, INVALID_URI_TEXT + endpointUrl.value))
      case Success(uri) =>
        if uri.scheme != Some("channel") then
          Some(Unprocessable(17, CHANNEL_PROTOCOL_TEXT))
        else if IsBlank(Some(uri.schemeSpecificPart)) then
          Some(Unprocessable(18, CHANNEL_NAME_TEXT))
        else None
  }

  /** validateChannelPayload: a payload that is set must be a known content type. */
  function ValidateChannelPayload(s: CanonicalSubscription, env: Environment): (r: Option<Rejection>)
    ensures r.None? <==> IsBlank(s.payloadString) || env.knownContentType(s.payloadString.value)
    ensures r.Some? ==> r.value.HasCode(1985)
  {
    if !IsBlank(s.payloadString) && !env.knownContentType(s.payloadString.value) then
      Some(Unprocessable(1985, INVALID_PAYLOAD_TEXT + s.payloadString.value))
    else None
  }

  /** validateChannelEndpoint: a rest-hook needs a non-blank endpoint. */
  function ValidateChannelEndpoint(s: CanonicalSubscription): (r: Option<Rejection>)
    ensures r.None? <==> !IsBlank(s.endpointUrl)
    ensures r.Some? ==> r.value.HasCode(21)
  {
    if IsBlank(s.endpointUrl) then
      Some(Unprocessable(21, REST_HOOK_ENDPOINT_TEXT))
    else None
  }

  /**
   * validateChannelType: the type must be set; a rest-hook must then pass the
   * payload check and then the endpoint check; other types pass.
   */
  function ValidateChannelType(s: CanonicalSubscription, env: Environment): (r: Option<Rejection>)
    ensures s.channelType.None? ==> r == Some(Unprocessable(20, CHANNEL_TYPE_TEXT))
    ensures s.channelType.Some? && s.channelType.value != RESTHOOK ==> r.None?
    ensures s.channelType == Some(RESTHOOK) ==>
              r == if ValidateChannelPayload(s, env).Some? then ValidateChannelPayload(s, env) else ValidateChannelEndpoint(s)
    ensures r.None? ==> s.channelType.Some?
  {
    if s.channelType.None? then Some(Unprocessable(20, CHANNEL_TYPE_TEXT))
    else if s.channelType.value == RESTHOOK then
      var payload := ValidateChannelPayload(s, env);
      if payload.Some? then payload else ValidateChannelEndpoint(s)
    else None
  }

  /**
   * validatePermissions: a cross-partition subscription submitted by anything but a
   * system request needs the feature switched on, and, unless it is an update with
   * no partition given, the default partition.
   */
  function ValidatePermissions(isCrossPartition: bool, request: RequestDetails, requestPartitionId: Option<PartitionId>,
                               pointcut: Pointcut, env: Environment): (r: Option<Rejection>)
    ensures !isCrossPartition || request.isSystemRequest ==> r.None?
    ensures isCrossPartition && !request.isSystemRequest && !env.crossPartitionSubscriptionEnabled ==>
              r == Some(Unprocessable(2009, CROSS_PARTITION_DISABLED_TEXT))
    ensures isCrossPartition && !request.isSystemRequest && env.crossPartitionSubscriptionEnabled ==>
              && (requestPartitionId.None? && pointcut == STORAGE_PRESTORAGE_RESOURCE_UPDATED ==> r.None?)
              && (requestPartitionId.Some? ==> (r.None? <==> requestPartitionId.value.isDefaultPartition))
              && (requestPartitionId.None? && pointcut != STORAGE_PRESTORAGE_RESOURCE_UPDATED ==>
                    (env.determinedPartition.None? ==> r == Some(NullPointer)))
    ensures isCrossPartition && !request.isSystemRequest && env.crossPartitionSubscriptionEnabled
            && !(requestPartitionId.None? && pointcut == STORAGE_PRESTORAGE_RESOURCE_UPDATED) ==>
              var toCheck := if requestPartitionId.Some? then requestPartitionId else env.determinedPartition;
              r == if toCheck.None? then Some(NullPointer)
                   else if toCheck.value.isDefaultPartition then None
                   else Some(Unprocessable(2010, CROSS_PARTITION_DEFAULT_TEXT))
    ensures r.Some? && r.value.Unprocessable? ==> r.value.code in {2009, 2010}
  {
    if isCrossPartition && !request.isSystemRequest then
      if !env.crossPartitionSubscriptionEnabled then
        Some(Unprocessable(2009, CROSS_PARTITION_DISABLED_TEXT))
      else if requestPartitionId.None? && pointcut == STORAGE_PRESTORAGE_RESOURCE_UPDATED then
        None
      else
        var toCheckPartitionId := if requestPartitionId.Some? then requestPartitionId else env.determinedPartition;
        if toCheckPartitionId.None? then Some(NullPointer)
        else if !toCheckPartitionId.value.isDefaultPartition then
          Some(Unprocessable(2010, CROSS_PARTITION_DEFAULT_TEXT))
        else None
    else None
  }

  /** The statuses that end validation after the permission check. */
  predicate SkipsChannelChecks(status: Status)
  {
    status == ERROR || status == OFF || status == NULL
  }

  /**
   * The criteria and topic checks of a live subscription: a topic subscription on
   * a server other than R4 needs its SubscriptionTopic; any other subscription has
   * its criteria, then its payload search criteria when present, validated.
   */
  function ValidateCriteriaOrTopic(s: CanonicalSubscription, env: Environment): (r: Option<Rejection>)
    ensures s.isTopicSubscription ==>
              (r.None? <==> env.fhirVersionIsR4 || env.topicFound) && (r.Some? ==> r.value.HasCode(2322))
    ensures !s.isTopicSubscription && env.validateQuery(s.criteriaString, "Subscription.criteria").Some? ==>
              r == env.validateQuery(s.criteriaString, "Subscription.criteria")
    ensures !s.isTopicSubscription && s.payloadSearchCriteria.None? ==>
              r == env.validateQuery(s.criteriaString, "Subscription.criteria")
    ensures !s.isTopicSubscription && env.validateQuery(s.criteriaString, "Subscription.criteria").None?
            && s.payloadSearchCriteria.Some? ==>
              r == env.validateQuery(s.payloadSearchCriteria,
                                     "Subscription.extension(url='" + EXT_SUBSCRIPTION_PAYLOAD_SEARCH_CRITERIA + "')")
  {
    if s.isTopicSubscription then
      if !env.fhirVersionIsR4 && !env.topicFound then
        Some(Unprocessable(2322, NO_TOPIC_TEXT + NullToString(s.topic)))
      else None
    else
      var criteria := env.validateQuery(s.criteriaString, "Subscription.criteria");
      if criteria.Some? then criteria
      else if s.payloadSearchCriteria.Some? then
        env.validateQuery(s.payloadSearchCriteria, "Subscription.extension(url='" + EXT_SUBSCRIPTION_PAYLOAD_SEARCH_CRITERIA + "')")
      else None
  }

  /**
   * The strategy step: the evaluator's strategy, refused when it is not in-memory on
   * a server that allows only in-memory subscriptions; either refusal (and any
   * evaluator failure) becomes code 9 carrying the criteria and the inner message.
   */
  function DecideStrategy(s: CanonicalSubscription, env: Environment): (r: Result<SubscriptionMatchingStrategy, Rejection>)
    ensures r.Success? <==> env.determineStrategy.Success?
                            && (env.determineStrategy.value == IN_MEMORY || !env.onlyAllowInMemorySubscriptions)
    ensures r.Success? ==> r.value == env.determineStrategy.value
    ensures r.Failure? ==> r.error.HasCode(9)
    ensures env.determineStrategy.Failure? ==>
              r == Failure(Unprocessable(9, INVALID_CRITERIA_TEXT + NullToString(s.criteriaString)
                                            + " " + env.determineStrategy.error))
    ensures env.determineStrategy.Success? && env.determineStrategy.value != IN_MEMORY && env.onlyAllowInMemorySubscriptions ==>
              r == Failure(Unprocessable(9, INVALID_CRITERIA_TEXT + NullToString(s.criteriaString)
                                            + " " + (MsgCode(2367) + IN_MEMORY_ONLY_TEXT)))
  {
    var inner: Result<SubscriptionMatchingStrategy, string> :=
      match env.determineStrategy
      case Failure(message) => Failure(message)
      case Success(strategy) =>
        if strategy != IN_MEMORY && env.onlyAllowInMemorySubscriptions then Failure(MsgCode(2367) + IN_MEMORY_ONLY_TEXT)
        else Success(strategy);
    match inner
    case Success(strategy) => Success(strategy)
    case Failure(message) =>
      Failure(Unprocessable(9, INVALID_CRITERIA_TEXT + NullToString(s.criteriaString) + " " + message))
  }

  /** The message of the 2267 rejection. */
  function PointcutText(pointcut: Pointcut): string
  {
    POINTCUT_TEXT
    + pointcut.Name()
  }

  /** The pointcuts the check runs on. */
  predicate IsStoragePointcut(pointcut: Pointcut)
  {
    pointcut == STORAGE_PRESTORAGE_RESOURCE_CREATED || pointcut == STORAGE_PRESTORAGE_RESOURCE_UPDATED
  }

  /**
   * validateSubmittedSubscription. Success means the submission may be stored; the
   * matching-strategy tag of the resource is cleared once the permission check
   * passes, and set to the strategy once that is decided, even if a later check
   * then refuses the submission.
   */
  method ValidateSubmittedSubscription(
    subscription: SubmittedSubscription, request: RequestDetails, requestPartitionId: Option<PartitionId>,
    pointcut: Pointcut, env: Environment) returns (result: Result<(), Rejection>)
    modifies subscription
    // checked first, before anything else is looked at
    ensures !IsStoragePointcut(pointcut) ==>
              result == Failure(Unprocessable(2267, PointcutText(pointcut)))
              && subscription.matchingStrategyTag == old(subscription.matchingStrategyTag)
    // resources of other types pass untouched
    ensures IsStoragePointcut(pointcut) && env.resourceType != "Subscription" ==>
              result.Success? && subscription.matchingStrategyTag == old(subscription.matchingStrategyTag)
    ensures IsStoragePointcut(pointcut) && env.resourceType == "Subscription" && env.canonicalize.Failure? ==>
              result == Failure(Unprocessable(955, env.canonicalize.error))
              && subscription.matchingStrategyTag == old(subscription.matchingStrategyTag)
    ensures IsStoragePointcut(pointcut) && env.resourceType == "Subscription" && env.canonicalize.Success?
            && env.canonicalize.value.status.None? ==>
              result.Failure? && result.error.HasCode(8)
              && subscription.matchingStrategyTag == old(subscription.matchingStrategyTag)
    // a refused permission check leaves the tag alone; a passed one clears it
    ensures IsStoragePointcut(pointcut) && env.resourceType == "Subscription" && env.canonicalize.Success?
            && env.canonicalize.value.status.Some? ==>
              var permissions := ValidatePermissions(subscription.isCrossPartition, request, requestPartitionId, pointcut, env);
              && (permissions.Some? ==> result == Failure(permissions.value)
                                        && subscription.matchingStrategyTag == old(subscription.matchingStrategyTag))
              && (permissions.None? && SkipsChannelChecks(env.canonicalize.value.status.value) ==>
                    result.Success? && subscription.matchingStrategyTag.None?)
    // a live subscription that passes carries the decided strategy in its tag
    ensures result.Success? && IsStoragePointcut(pointcut) && env.resourceType == "Subscription" ==>
              var s := env.canonicalize.value;
              && s.status.Some?
              && ValidatePermissions(subscription.isCrossPartition, request, requestPartitionId, pointcut, env).None?
              && (!SkipsChannelChecks(s.status.value) ==>
                    && ValidateCriteriaOrTopic(s, env).None?
                    && ValidateChannelType(s, env).None?
                    && DecideStrategy(s, env).Success?
                    && subscription.matchingStrategyTag == Some(DecideStrategy(s, env).value)
                    && (s.channelType == Some(MESSAGE) ==> ValidateMessageSubscriptionEndpoint(s.endpointUrl, env).None?))
    // a live subscription that passes the permission check: the tag is cleared, and
    // the first failing check among criteria or topic, channel type and strategy refuses it
    ensures IsStoragePointcut(pointcut) && env.resourceType == "Subscription" && env.canonicalize.Success?
            && env.canonicalize.value.status.Some? && !SkipsChannelChecks(env.canonicalize.value.status.value)
            && ValidatePermissions(subscription.isCrossPartition, request, requestPartitionId, pointcut, env).None? ==>
              var s := env.canonicalize.value;
              && (ValidateCriteriaOrTopic(s, env).Some? ==>
                    result == Failure(ValidateCriteriaOrTopic(s, env).value) && subscription.matchingStrategyTag.None?)
              && (ValidateCriteriaOrTopic(s, env).None? && ValidateChannelType(s, env).Some? ==>
                    result == Failure(ValidateChannelType(s, env).value) && subscription.matchingStrategyTag.None?)
              && (ValidateCriteriaOrTopic(s, env).None? && s.channelType.None? ==>
                    result == Failure(Unprocessable(20, CHANNEL_TYPE_TEXT)))
              && (ValidateCriteriaOrTopic(s, env).None? && ValidateChannelType(s, env).None? && DecideStrategy(s, env).Failure? ==>
                    result == Failure(DecideStrategy(s, env).error) && subscription.matchingStrategyTag.None?)
    // a refusal after the strategy is decided leaves the strategy in the tag
    ensures result.Failure? && IsStoragePointcut(pointcut) && env.resourceType == "Subscription"
            && env.canonicalize.Success? && env.canonicalize.value.status.Some?
            && !SkipsChannelChecks(env.canonicalize.value.status.value)
            && ValidatePermissions(subscription.isCrossPartition, request, requestPartitionId, pointcut, env).None?
            && ValidateCriteriaOrTopic(env.canonicalize.value, env).None?
            && ValidateChannelType(env.canonicalize.value, env).None?
            && DecideStrategy(env.canonicalize.value, env).Success? ==>
              subscription.matchingStrategyTag == Some(DecideStrategy(env.canonicalize.value, env).value)
              && env.canonicalize.value.channelType == Some(MESSAGE)
              && ValidateMessageSubscriptionEndpoint(env.canonicalize.value.endpointUrl, env).Some?
              && result == Failure(ValidateMessageSubscriptionEndpoint(env.canonicalize.value.endpointUrl, env).value)
  {
    if !IsStoragePointcut(pointcut) {
      return Failure(Unprocessable(2267, PointcutText(pointcut)));
    }
    if env.resourceType != "Subscription" {
      return Success(());
    }
    if env.canonicalize.Failure? {
      return Failure(Unprocessable(955, env.canonicalize.error));
    }
    var s := env.canonicalize.value;
    var finished := false;
    if s.status.None? {
      return Failure(Unprocessable(8, STATUS_TEXT));
    }
    match s.status.value {
      case REQUESTED =>
      case ACTIVE =>
      case ERROR => finished := true;
      case OFF => finished := true;
      case NULL => finished := true;
    }
    var permissions := ValidatePermissions(subscription.isCrossPartition, request, requestPartitionId, pointcut, env);
    if permissions.Some? {
      return Failure(permissions.value);
    }
    subscription.matchingStrategyTag := None;
    if !finished {
      result := ValidateLiveSubscription(subscription, s, env);
      return;
    }
    return Success(());
  }

  /**
   * The checks of validateSubmittedSubscription that only a REQUESTED or ACTIVE
   * subscription goes through, in order: criteria or topic, channel type, matching
   * strategy (stored in the tag once decided), and the endpoint of a message channel.
   */
  method ValidateLiveSubscription(subscription: SubmittedSubscription, s: CanonicalSubscription, env: Environment)
    returns (result: Result<(), Rejection>)
    modifies subscription
    ensures ValidateCriteriaOrTopic(s, env).Some? ==>
              result == Failure(ValidateCriteriaOrTopic(s, env).value)
              && subscription.matchingStrategyTag == old(subscription.matchingStrategyTag)
    ensures ValidateCriteriaOrTopic(s, env).None? && ValidateChannelType(s, env).Some? ==>
              result == Failure(ValidateChannelType(s, env).value)
              && subscription.matchingStrategyTag == old(subscription.matchingStrategyTag)
    ensures ValidateCriteriaOrTopic(s, env).None? && ValidateChannelType(s, env).None? && DecideStrategy(s, env).Failure? ==>
              result == Failure(DecideStrategy(s, env).error)
              && subscription.matchingStrategyTag == old(subscription.matchingStrategyTag)
    ensures ValidateCriteriaOrTopic(s, env).None? && ValidateChannelType(s, env).None? && DecideStrategy(s, env).Success? ==>
              && subscription.matchingStrategyTag == Some(DecideStrategy(s, env).value)
              && (result.Success? <==> s.channelType != Some(MESSAGE) || ValidateMessageSubscriptionEndpoint(s.endpointUrl, env).None?)
              && (result.Failure? ==> result == Failure(ValidateMessageSubscriptionEndpoint(s.endpointUrl, env).value))
    // the code-10 refusal is never reached: the channel-type check has already refused a missing type with code 20
    ensures ValidateCriteriaOrTopic(s, env).None? && s.channelType.None? ==>
              result == Failure(Unprocessable(20, CHANNEL_TYPE_TEXT))
  {
    var criteria := ValidateCriteriaOrTopic(s, env);
    if criteria.Some? {
      return Failure(criteria.value);
    }
    var channel := ValidateChannelType(s, env);
    if channel.Some? {
      return Failure(channel.value);
    }
    var strategy := DecideStrategy(s, env);
    if strategy.Failure? {
      return Failure(strategy.error);
    }
    subscription.matchingStrategyTag := Some(strategy.value);
    if s.channelType.None? {
      return Failure(Unprocessable(10, CHANNEL_TYPE_ON_SERVER_TEXT));
    } else if s.channelType.value == MESSAGE {
      var endpoint := ValidateMessageSubscriptionEndpoint(s.endpointUrl, env);
      if endpoint.Some? {
        return Failure(endpoint.value);
      }
    }
    return Success(());
  }
}
