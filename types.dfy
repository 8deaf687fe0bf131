/** The record types shared by the components (types.ts). */
module Types {
  import opened Wrappers

  /** `'low' | 'medium' | 'high'`. */
  datatype Priority = Low | Medium | High

  /** One row of the `todos` table. `createdAt` is the ISO timestamp string the
      store (or the client, for local rows) assigns; `description` is optional. */
  datatype Todo = Todo(
    id: string,
    createdAt: string,
    title: string,
    description: Option<string>,
    isCompleted: bool,
    priority: Priority,
    category: string)

  /** The structured task breakdown the analysis service returns. */
  datatype AIAnalysis = AIAnalysis(subtasks: seq<string>, tips: string, estimatedTime: string)
}
