/** The shared Elasticsearch client: a one-slot lazy singleton. The first call
    constructs a client for the configured node and caches it; later calls return
    the cached client. A construction that throws leaves the slot empty. */
module ElasticsearchClient {
  import opened Wrappers

  const DefaultNode := "http://localhost:9200"

  /** A client object; two clients are the same only if they are the same object. */
  class Client {
    const node: string

    constructor(node: string)
      ensures this.node == node
    {
      this.node := node;
    }
  }

  /** The node the client connects to: `ELASTICSEARCH_NODE` when set and non-empty,
      else the local default. */
  function ConfiguredNode(env: Option<string>): (r: string)
    ensures r != ""
    ensures env.Some? && env.value != "" ==> r == env.value
    ensures env.None? || env.value == "" ==> r == DefaultNode
  {
    if env.Some? && env.value != "" then env.value else DefaultNode
  }

  /** The module's state: its configuration and the `clientInstance` slot. */
  class ClientModule {
    const configNode: string
    var clientInstance: Client?
    /** How many clients have been constructed. */
    ghost var constructed: nat

    ghost predicate Valid()
      reads this
    {
      constructed <= 1 && (clientInstance == null <==> constructed == 0) &&
      (clientInstance != null ==> clientInstance.node == configNode)
    }

    constructor(env: Option<string>)
      ensures Valid()
      ensures configNode == ConfiguredNode(env) && clientInstance == null && constructed == 0
    {
      configNode := ConfiguredNode(env);
      clientInstance := null;
      constructed := 0;
    }

    /** `getElasticsearchClient`. `fault` is the error the `Client` constructor
        throws, if it throws. */
    method GetElasticsearchClient(fault: Option<string>) returns (r: Result<Client>)
      requires Valid()
      modifies this
      ensures Valid()
      ensures old(clientInstance) != null ==>
        r == Success(old(clientInstance)) && clientInstance == old(clientInstance) && constructed == old(constructed)
      ensures old(clientInstance) == null && fault.Some? ==>
        r == Failure(fault.value) && clientInstance == null && constructed == 0
      ensures old(clientInstance) == null && fault.None? ==>
        r.Success? && fresh(r.value) && r.value.node == configNode && clientInstance == r.value && constructed == 1
    {
      if clientInstance == null {
        if fault.Some? {
          return Failure(fault.value);
        }
        clientInstance := new Client(configNode);
        constructed := constructed + 1;
      }
      return Success(clientInstance);
    }
  }

  /** Loading the module: the exported `esClient` is the result of a first call to
      `getElasticsearchClient`, so it is the instance every later call returns. */
  method Load(env: Option<string>, fault: Option<string>) returns (m: ClientModule, esClient: Result<Client>)
    ensures fresh(m) && m.Valid() && m.configNode == ConfiguredNode(env)
    ensures fault.None? ==> esClient.Success? && m.clientInstance == esClient.value && m.constructed == 1
    ensures fault.Some? ==> esClient == Failure(fault.value) && m.clientInstance == null
  {
    m := new ClientModule(env);
    esClient := m.GetElasticsearchClient(fault);
  }

  /** Two calls in a row: once the first has succeeded, the second returns the very
      same object and constructs nothing, whatever fault it might have met. */
  method GetTwice(m: ClientModule, fault1: Option<string>, fault2: Option<string>)
    returns (first: Result<Client>, second: Result<Client>)
    requires m.Valid()
    modifies m
    ensures m.Valid()
    ensures first.Success? ==> second == first && m.constructed == 1
    ensures old(m.clientInstance) == null && fault1.Some? ==> first.Failure? && m.constructed <= 1
  {
    first := m.GetElasticsearchClient(fault1);
    second := m.GetElasticsearchClient(fault2);
  }
}
