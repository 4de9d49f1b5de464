/** The task record of the local-storage variant (src/types.ts). */
module Types {

  /** The closed set of task categories. */
  datatype Category = Work | Life | Pet

  /** A task; `dueAt` and `createdAt` are ISO timestamps kept as text. */
  datatype Task = Task(
    id: string,
    title: string,
    category: Category,
    dueAt: string,
    completed: bool,
    createdAt: string)
}
