/** Environment validation and the lazily built, memoised Supabase client. */
module SupabaseConnection {
  import opened Wrappers

  /** The two values read from `process.env`; `None` is an unset variable. */
  datatype Environment = Environment(url: Option<string>, anonKey: Option<string>)

  datatype Credentials = Credentials(supabaseUrl: string, supabaseKey: string)

  const MissingUrlMessage: string := "Missing NEXT_PUBLIC_SUPABASE_URL environment variable"
  const MissingKeyMessage: string := "Missing NEXT_PUBLIC_SUPABASE_ANON_KEY environment variable"

  /** An environment value is truthy when it is set and not empty. */
  predicate Present(v: Option<string>) {
    v.Some? && v.value != ""
  }

  /** `validateEnvironment()`: the URL is checked first, then the key; an
      `Err` stands for the `Error` it throws. */
  function ValidateEnvironment(env: Environment): (r: Result<Credentials, string>)
    ensures r.Ok? <==> Present(env.url) && Present(env.anonKey)
    ensures !Present(env.url) ==> r == Err(MissingUrlMessage)
    ensures Present(env.url) && !Present(env.anonKey) ==> r == Err(MissingKeyMessage)
    ensures r.Ok? ==> r.value == Credentials(env.url.value, env.anonKey.value)
  {
    if !Present(env.url) then Err(MissingUrlMessage)
    else if !Present(env.anonKey) then Err(MissingKeyMessage)
    else Ok(Credentials(env.url.value, env.anonKey.value))
  }

  /** The object `createClient(url, key, ...)` builds; its identity matters. */
  class SupabaseClient {
    const url: string
    const key: string

    constructor (url: string, key: string)
      ensures this.url == url && this.key == key
    {
      this.url := url;
      this.key := key;
    }
  }

  /** The module-level state: `let supabaseClient = null`. */
  class ClientCache {
    var supabaseClient: SupabaseClient?

    constructor ()
      ensures supabaseClient == null
    {
      supabaseClient := null;
    }

    /** `getSupabaseClient()`: validates and builds the client on the first
        successful call only; afterwards returns the same object whatever
        the environment now says. */
    method GetSupabaseClient(env: Environment) returns (r: Result<SupabaseClient, string>)
      modifies this
      ensures old(supabaseClient) != null ==>
                r == Ok(old(supabaseClient)) && supabaseClient == old(supabaseClient)
      ensures old(supabaseClient) == null && ValidateEnvironment(env).Err? ==>
                r == Err(ValidateEnvironment(env).error) && supabaseClient == null
      ensures old(supabaseClient) == null && ValidateEnvironment(env).Ok? ==>
                && r.Ok? && fresh(r.value) && supabaseClient == r.value
                && r.value.url == ValidateEnvironment(env).value.supabaseUrl
                && r.value.key == ValidateEnvironment(env).value.supabaseKey
    {
      if supabaseClient == null {
        var checked := ValidateEnvironment(env);
        if checked.Err? {
          return Err(checked.error);
        }
        supabaseClient := new SupabaseClient(checked.value.supabaseUrl, checked.value.supabaseKey);
      }
      r := Ok(supabaseClient);
    }
  }

  /** Loading the module: the cache starts empty and the exported `supabase`
      constant forces the first `getSupabaseClient()` call, so a missing
      variable fails the load itself. */
  method LoadModule(env: Environment) returns (cache: ClientCache, supabase: Result<SupabaseClient, string>)
    ensures fresh(cache)
    ensures supabase.Ok? <==> ValidateEnvironment(env).Ok?
    ensures supabase.Err? ==> supabase == Err(ValidateEnvironment(env).error) && cache.supabaseClient == null
    ensures supabase.Ok? ==> fresh(supabase.value) && cache.supabaseClient == supabase.value
  {
    cache := new ClientCache();
    supabase := cache.GetSupabaseClient(env);
  }

  /** Once the module has loaded, every later call hands back the exported
      client, even if the environment has since been emptied. */
  method LaterCallsReuseClient(env: Environment, later: Environment)
    returns (supabase: Result<SupabaseClient, string>, again: Result<SupabaseClient, string>)
    requires ValidateEnvironment(env).Ok?
    ensures supabase.Ok? && again == supabase
  {
    var cache;
    cache, supabase := LoadModule(env);
    again := cache.GetSupabaseClient(later);
  }
}
