/**
 * ModelService: resolving a model configuration by id, and discovering the
 * provider models that answer a probe request. The provider's model listing
 * and the probe are opaque.
 */
module ModelService {
  import opened Wrappers
  import opened Text
  import opened Records
  import Seqs

  const InvalidIdMessage: string := "Model configuration ID must be a positive number"

  /**
   * findConfigurationById: a null or non-positive id is rejected before the
   * store is consulted; a positive id that is not stored raises
   * ModelNotFoundException; a stored id gives exactly its configuration.
   */
  function FindConfigurationById(configs: map<int, ModelConfiguration>, id: Option<int>)
    : (r: Result<ModelConfiguration>)
    ensures (id.None? || id.value <= 0) <==> r == Err(ValidationException(InvalidIdMessage))
    ensures id.Some? && id.value > 0 && id.value !in configs ==> r == Err(ModelNotFoundException(id.value))
    ensures r.Ok? <==> id.Some? && id.value > 0 && id.value in configs
    ensures r.Ok? ==> r.value == configs[id.value]
  {
    if id.None? || id.value <= 0 then Err(ValidationException(InvalidIdMessage))
    else if id.value !in configs then Err(ModelNotFoundException(id.value))
    else Ok(configs[id.value])
  }

  /**
   * An invalid id fails the same way whatever is stored: the store is not
   * consulted.
   */
  lemma InvalidIdIgnoresStore(a: map<int, ModelConfiguration>, b: map<int, ModelConfiguration>, id: Option<int>)
    requires id.None? || id.value <= 0
    ensures FindConfigurationById(a, id) == FindConfigurationById(b, id)
  {
  }

  /**
   * tryOpenAiModel: a null or blank id is not usable, whatever the probe
   * would say; otherwise the id is usable exactly when the probe request
   * succeeds (`probe` is false when the request throws).
   */
  function TryOpenAiModel(probe: string -> bool, modelId: Option<string>): (usable: bool)
    ensures modelId.None? || IsBlank(modelId.value) ==> !usable
    ensures modelId.Some? && !IsBlank(modelId.value) ==> usable == probe(modelId.value)
  {
    modelId.Some? && !IsBlank(modelId.value) && probe(modelId.value)
  }

  /** The response to GET /models: the transport error, or the decoded body. */
  datatype ModelListing =
    | TransportError                        // a RestClientException
    | NoBody                                // a null body
    | NoData                                // a body without "data"
    | Listed(ids: seq<Option<string>>)      // the "id" of each entry, possibly null

  /** The listed ids that are not null, in listing order. */
  function NonNullIds(ids: seq<Option<string>>): (r: seq<string>)
    ensures forall m :: m in r <==> Some(m) in ids
  {
    if ids == [] then []
    else
      assert forall x :: x in ids <==> x == ids[0] || x in ids[1..];
      match ids[0]
      case None => NonNullIds(ids[1..])
      case Some(m) => [m] + NonNullIds(ids[1..])
  }

  /** tryOpenAiModel as a predicate on ids. */
  function Usable(probe: string -> bool): string -> bool
  {
    (m: string) => TryOpenAiModel(probe, Some(m))
  }

  /** The ids the probe accepts, in listing order. */
  function UsableIds(modelIds: seq<string>, probe: string -> bool): (r: seq<string>)
    ensures forall m :: m in r <==> m in modelIds && TryOpenAiModel(probe, Some(m))
  {
    Seqs.Filter(modelIds, Usable(probe))
  }

  /** The loop of getUsableOpenAiModels: each id is tried in order and kept when usable. */
  method ProbeEach(modelIds: seq<string>, probe: string -> bool) returns (usable: seq<string>)
    ensures usable == UsableIds(modelIds, probe)
  {
    usable := [];
    var k := 0;
    while k < |modelIds|
      invariant 0 <= k <= |modelIds|
      invariant usable == Seqs.Filter(modelIds[..k], Usable(probe))
    {
      assert modelIds[..k + 1] == modelIds[..k] + [modelIds[k]];
      Seqs.FilterSnoc(modelIds[..k], modelIds[k], Usable(probe));
      if TryOpenAiModel(probe, Some(modelIds[k])) {
        usable := usable + [modelIds[k]];
      }
      k := k + 1;
    }
    assert modelIds[..k] == modelIds;
  }

  /**
   * getUsableOpenAiModels: a failed listing raises ModelApiException with
   * the source's message; otherwise every non-null id is tried in order and
   * the usable ones are returned in listing order.
   */
  method GetUsableOpenAiModels(listing: ModelListing, probe: string -> bool)
    returns (r: Result<seq<string>>)
    ensures listing.TransportError? ==> r == Err(ModelApiException("Failed to communicate with OpenAI API"))
    ensures listing.NoBody? ==> r == Err(ModelApiException("Empty response from OpenAI models API"))
    ensures listing.NoData? ==> r == Err(ModelApiException("No models data in OpenAI API response"))
    ensures listing.Listed? ==> r == Ok(UsableIds(NonNullIds(listing.ids), probe))
  {
    match listing
    case TransportError =>
      return Err(ModelApiException("Failed to communicate with OpenAI API"));
    case NoBody =>
      return Err(ModelApiException("Empty response from OpenAI models API"));
    case NoData =>
      return Err(ModelApiException("No models data in OpenAI API response"));
    case Listed(ids) =>
      var usable := ProbeEach(NonNullIds(ids), probe);
      return Ok(usable);
  }
}
