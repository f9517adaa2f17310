/** The record shapes stored by the application (a prompt, a profile and the persisted root). */
module Types {

  datatype Option<T> = None | Some(value: T)

  /** Optional fields that only records written by older versions carry. */
  datatype LegacyFields = LegacyFields(
    persona: Option<string>,
    task: Option<string>,
    format: Option<string>,
    context: Option<string>,
    examples: Option<string>)

  const NoLegacyFields := LegacyFields(None, None, None, None, None)

  /** One saved prompt. `id` is a creation timestamp; `category` is the grouping key. */
  datatype Prompt = Prompt(
    id: int,
    fullPrompt: string,
    category: string,
    mainCategory: Option<string>,
    subCategory: Option<string>,
    referenceImage: Option<string>,
    legacy: LegacyFields)

  datatype Profile = Profile(prompts: seq<Prompt>)

  /** The persisted root: who is signed in (if anybody) and every profile by name. */
  datatype ProfilesData = ProfilesData(currentUser: Option<string>, profiles: map<string, Profile>)

  /** The state before anything is loaded, and the state a load falls back to. */
  const EmptyData := ProfilesData(None, map[])
}
