/**
 The eight scenario classes. Each runs the driver over the same scales with
 its own workload and writes its own metrics file; they differ in nothing else.
 */
module Scenarios {
  import opened Results
  import opened Recorder
  import opened Schedule
  import opened Driver
  import opened Trace

  const ProjectCategories: Scenario := Scenario(Relation(Project, "categories", Category), "project_categories_metrics.csv")
  const CategoryProjects: Scenario := Scenario(Relation(Category, "projects", Project), "category_projects_metrics.csv")
  const TodoTasksof: Scenario := Scenario(Relation(Todo, "tasksof", Project), "todo_tasksof_metrics.csv")
  const ProjectTasks: Scenario := Scenario(Relation(Project, "tasks", Todo), "project_tasks_metrics.csv")
  const CategoryTodos: Scenario := Scenario(Relation(Category, "todos", Todo), "category_todos_metrics.csv")
  const ProjectBasic: Scenario := Scenario(Basic(Project), "project_metrics.csv")
  const CategoryBasic: Scenario := Scenario(Basic(Category), "category_metrics.csv")
  const TodoBasic: Scenario := Scenario(Basic(Todo), "todo_metrics.csv")

  /** The scale column of a list of rows. */
  function ScaleColumn(rows: seq<Row>): (col: seq<int>)
    ensures |col| == |rows|
  {
    seq(|rows|, i requires 0 <= i < |rows| => rows[i].scale)
  }

  /** Row `k` of a run carries the scale of the `k`-th unit of work. */
  lemma RowsFollowTags(schedule: seq<int>, env: nat -> UnitInput)
    ensures ScaleColumn(Rows(schedule, env)) == Tags(schedule)
  {
    var col := ScaleColumn(Rows(schedule, env));
    forall k | 0 <= k < |col|
      ensures col[k] == Tags(schedule)[k]
    {
      var rows := Rows(schedule, env);
      assert col[k] == rows[k].scale;
      assert rows[k] == UnitRow(Tags(schedule)[k], env(k));
    }
  }

  /**
   A run of any scenario over the scales 1, 5, 10, 50, 75, 100: the monitor
   accepts every call and ends with 241 rows, exactly `s` of them with scale
   `s`, in non-decreasing scale order; it sees add, update, delete for each
   unit; the metrics file is written once, last.
   */
  lemma ScenarioRun(scn: Scenario, env: nat -> UnitInput)
    ensures Replay(Fresh, Calls(RunEvents(scn, Scales, env))) == Ok(Monitor(Rows(Scales, env), true))
    ensures |Rows(Scales, env)| == 241
    ensures forall s :: s in Scales ==> Count(ScaleColumn(Rows(Scales, env)), s) == s
    ensures NonDecreasing(ScaleColumn(Rows(Scales, env)))
    ensures |Calls(RunEvents(scn, Scales, env))| == 3 * 241
    ensures var ev := RunEvents(scn, Scales, env);
            ev[|ev| - 1] == Write(scn.file) && forall i :: 0 <= i < |ev| - 1 ==> !ev[i].Write?
  {
    RunReplay(scn, Scales, env);
    ScalesTags();
    RowsFollowTags(Scales, env);
    RunPhases(scn, Scales, env);
    WriteOnlyAtEnd(scn, Scales, env);
  }

  /** A relation scenario run over the scales: 482 creates, 241 links and unlinks, no delete. */
  lemma RelationTally(scn: Scenario, env: nat -> UnitInput)
    requires scn.workload.Relation?
    ensures var reqs := Requests(RunEvents(scn, Scales, env));
            Tally(reqs, Creates) == 482 && Tally(reqs, Links) == 241 && Tally(reqs, Unlinks) == 241 &&
            Tally(reqs, Modifies) == 241 && Tally(reqs, Removes) == 0
  {
    ScalesShape();
    RunTally(scn, Scales, env, Creates);
    RunTally(scn, Scales, env, Links);
    RunTally(scn, Scales, env, Unlinks);
    RunTally(scn, Scales, env, Modifies);
    RunTally(scn, Scales, env, Removes);
  }

  /** A basic scenario run over the scales: 482 creates but only 241 deletes. */
  lemma BasicTally(scn: Scenario, env: nat -> UnitInput)
    requires scn.workload.Basic?
    ensures var reqs := Requests(RunEvents(scn, Scales, env));
            Tally(reqs, Creates) == 482 && Tally(reqs, Modifies) == 241 && Tally(reqs, Removes) == 241 &&
            Tally(reqs, Links) == 0 && Tally(reqs, Unlinks) == 0
  {
    ScalesShape();
    RunTally(scn, Scales, env, Creates);
    RunTally(scn, Scales, env, Links);
    RunTally(scn, Scales, env, Unlinks);
    RunTally(scn, Scales, env, Modifies);
    RunTally(scn, Scales, env, Removes);
  }

  /** `ProjectCategoriesTests`: link a project to a category, update the category, unlink them. */
  lemma ProjectCategoriesUnit(scale: int, u: UnitInput)
    ensures Timed(UnitEvents(ProjectCategories.workload, scale, u))
         == [Link(Project, u.firstId, "categories", u.secondId), Modify(Category, u.secondId),
             Unlink(Project, u.firstId, "categories", u.secondId)]
    ensures ProjectCategories.file == "project_categories_metrics.csv"
  {
    RelationUnit(Project, "categories", Category, scale, u);
  }

  /** `CategoryProjectsTests`: link a category to a project, update the project, unlink them. */
  lemma CategoryProjectsUnit(scale: int, u: UnitInput)
    ensures Timed(UnitEvents(CategoryProjects.workload, scale, u))
         == [Link(Category, u.firstId, "projects", u.secondId), Modify(Project, u.secondId),
             Unlink(Category, u.firstId, "projects", u.secondId)]
    ensures CategoryProjects.file == "category_projects_metrics.csv"
  {
    RelationUnit(Category, "projects", Project, scale, u);
  }

  /** `TodoTasksofTests`: link a todo to a project, update the project, unlink them. */
  lemma TodoTasksofUnit(scale: int, u: UnitInput)
    ensures Timed(UnitEvents(TodoTasksof.workload, scale, u))
         == [Link(Todo, u.firstId, "tasksof", u.secondId), Modify(Project, u.secondId),
             Unlink(Todo, u.firstId, "tasksof", u.secondId)]
    ensures TodoTasksof.file == "todo_tasksof_metrics.csv"
  {
    RelationUnit(Todo, "tasksof", Project, scale, u);
  }

  /** `ProjectTasksTests`: link a project to a todo, update the todo, unlink them. */
  lemma ProjectTasksUnit(scale: int, u: UnitInput)
    ensures Timed(UnitEvents(ProjectTasks.workload, scale, u))
         == [Link(Project, u.firstId, "tasks", u.secondId), Modify(Todo, u.secondId),
             Unlink(Project, u.firstId, "tasks", u.secondId)]
    ensures ProjectTasks.file == "project_tasks_metrics.csv"
  {
    RelationUnit(Project, "tasks", Todo, scale, u);
  }

  /** `CategoryTodosTests`: link a category to a todo, update the todo, unlink them. */
  lemma CategoryTodosUnit(scale: int, u: UnitInput)
    ensures Timed(UnitEvents(CategoryTodos.workload, scale, u))
         == [Link(Category, u.firstId, "todos", u.secondId), Modify(Todo, u.secondId),
             Unlink(Category, u.firstId, "todos", u.secondId)]
    ensures CategoryTodos.file == "category_todos_metrics.csv"
  {
    RelationUnit(Category, "todos", Todo, scale, u);
  }

  /**
   `ProjectTests`: the timed create's project is never addressed again; the
   update and the delete go to the project of the untimed create.
   */
  lemma ProjectUnit(scale: int, u: UnitInput)
    ensures Timed(UnitEvents(ProjectBasic.workload, scale, u))
         == [Create(Project, u.firstId), Modify(Project, u.secondId), Remove(Project, u.secondId)]
    ensures u.firstId != u.secondId ==>
              Modify(Project, u.firstId) !in Requests(UnitEvents(ProjectBasic.workload, scale, u)) &&
              Remove(Project, u.firstId) !in Requests(UnitEvents(ProjectBasic.workload, scale, u))
    ensures ProjectBasic.file == "project_metrics.csv"
  {
    BasicUnit(Project, scale, u);
  }

  /** `CategoryTests`: as for projects, the update and delete address the second category created. */
  lemma CategoryUnit(scale: int, u: UnitInput)
    ensures Timed(UnitEvents(CategoryBasic.workload, scale, u))
         == [Create(Category, u.firstId), Modify(Category, u.secondId), Remove(Category, u.secondId)]
    ensures u.firstId != u.secondId ==>
              Modify(Category, u.firstId) !in Requests(UnitEvents(CategoryBasic.workload, scale, u)) &&
              Remove(Category, u.firstId) !in Requests(UnitEvents(CategoryBasic.workload, scale, u))
    ensures CategoryBasic.file == "category_metrics.csv"
  {
    BasicUnit(Category, scale, u);
  }

  /** `TodoTests`: as for projects, the update and delete address the second todo created. */
  lemma TodoUnit(scale: int, u: UnitInput)
    ensures Timed(UnitEvents(TodoBasic.workload, scale, u))
         == [Create(Todo, u.firstId), Modify(Todo, u.secondId), Remove(Todo, u.secondId)]
    ensures u.firstId != u.secondId ==>
              Modify(Todo, u.firstId) !in Requests(UnitEvents(TodoBasic.workload, scale, u)) &&
              Remove(Todo, u.firstId) !in Requests(UnitEvents(TodoBasic.workload, scale, u))
    ensures TodoBasic.file == "todo_metrics.csv"
  {
    BasicUnit(Todo, scale, u);
  }
}
