/**
 * OpenMemory's copy of memory categorisation: the same prompt, parsing and
 * fallback as `Categorization`, with the model named by the `LLM_MODEL`
 * environment variable. The environment is a parameter.
 */
module OpenMemoryCategorization {
  import opened Wrappers
  import Categorization

  const ModelVariable := "LLM_MODEL"

  /** `os.getenv("LLM_MODEL", default)`: the variable's value whenever it is set, even to "". */
  function ModelName(env: map<string, string>): (r: string)
    ensures ModelVariable in env ==> r == env[ModelVariable]
    ensures ModelVariable !in env ==> r == Categorization.DefaultModel
  {
    if ModelVariable in env then env[ModelVariable] else Categorization.DefaultModel
  }

  /**
   * `get_categories_for_memory(memory)`: the request names the model chosen
   * by the environment; a failed call or a `null` content gives the fallback,
   * a content its parsed categories.
   */
  function GetCategoriesForMemory(memory: string, env: map<string, string>,
                                  complete: Categorization.Request -> Categorization.Completion): (r: seq<string>)
    ensures var reply := complete(Categorization.MemoryRequest(ModelName(env), memory));
      && (reply.Raised? ==> r == Categorization.Fallback())
      && (reply == Categorization.Reply(None) ==> r == Categorization.Fallback())
      && (reply.Reply? && reply.content.Some? ==> r == Categorization.ParseCategories(reply.content.value))
  {
    Categorization.CategoriesFor(Categorization.MemoryRequest(ModelName(env), memory), complete)
  }

  /** Without `LLM_MODEL` set, OpenMemory categorises exactly as the fixed-model copy does. */
  lemma SameAsFixedModel(memory: string, env: map<string, string>,
                         complete: Categorization.Request -> Categorization.Completion)
    requires ModelVariable !in env
    ensures GetCategoriesForMemory(memory, env, complete) == Categorization.GetCategoriesForMemory(memory, complete)
  {
  }
}
