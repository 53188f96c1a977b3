/** The static tables of the site (desktop applications, the window open at load,
    the project list and its per-project details) and the builder of the text a
    project window shows. */
module Constants {

  import opened Types
  import opened JsBuiltins

  /** The launchable applications, in desktop order. */
  const APPS: seq<AppData> := [
    AppData("about", "About Me.txt", "notepad", "text-blue-400"),
    AppData("projects", "My Projects", "explorer", "text-yellow-400"),
    AppData("skills", "Terminal", "terminal", "text-emerald-400"),
    AppData("contact", "Contact Me", "mail", "text-purple-400"),
    AppData("game", "Rock Paper Scissors", "game", "text-red-400"),
    AppData("credits", "credits.txt", "notepad", "text-blue-400"),
    AppData("chat", "Chat (WIP)", "chat", "text-cyan-400")
  ]

  /** The one window open when the page loads: the first application, at z-index 10. */
  const INITIAL_WINDOWS: seq<WindowData> := [
    WindowData(APPS[0].id, APPS[0].title, APPS[0].kind, true, false, false, 10,
               Position(50, 50), Size(640, 480), Some("intro"))
  ]

  datatype Project = Project(
    id: int,
    name: string,
    role: string,
    desc: string,
    tags: seq<string>,
    color: string,
    icon: Option<string>)

  /** The date range and the achievements that the project table itself lacks. */
  datatype ProjectDetails = ProjectDetails(dateRange: string, achievements: seq<string>)

  const PROJECTS: seq<Project> := [
    Project(
      1,
      "Spectra Tech Corp - E-Commerce Platform",
      "CTO",
      "Architected and launched a high-performance B2B-B2C e-commerce platform using Next.js and React Native (Expo), ensuring seamless cross-platform experience.",
      [
        "Next.js",
        "React Native",
        "Expo",
        "GCP",
        "Docker",
        "Microservices",
        "Prometheus",
        "Grafana"
      ],
      "bg-blue-500/20 text-blue-200",
      Some("/spectra.png")),
    Project(
      2,
      "Pearl Labs (Now Alto Foundation) - Crypto banking protocol (Crypto technology)",
      "CTO | Senior Solidity Engineer",
      "Designed and secured a multi-million dollar DeFi protocol featuring lending markets, yield optimization, and inter-chain interoperability.",
      [
        "Solidity",
        "DeFi",
        "Foundry",
        "Hardhat",
        "Smart Contracts",
        "Web3"
      ],
      "bg-blue-500/40 text-green-200",
      Some("/alto_logo_light.svg")),
    Project(
      3,
      "KogeFarm - Crypto yield farming (Crypto technology)",
      "Technical Lead",
      "Developed complex yield-optimizing smart contracts in Solidity, automating asset compounding across liquidity pools to maximize APY.",
      [
        "Solidity",
        "DeFi",
        "Yield Farming",
        "Smart Contracts",
        "Frontend Integration"
      ],
      "bg-purple-500/40 text-purple-200",
      Some("/kogefarm.svg")),
    Project(
      4,
      "Pivohub - B2B commercial solution",
      "Software Developer",
      "Developed full-stack features for a supply chain management platform connecting craft producers to retailers, optimizing inventory tracking and order processing.",
      [
        "Full Stack",
        "Supply Chain",
        "Inventory Management"
      ],
      "bg-yellow-500/50 text-yellow-200",
      Some("/pivohub.svg")),
    Project(
      5,
      "Multicim - Medical solution",
      "Full Stack Developer",
      "Spearheaded complete refactor of legacy application to modern, scalable tools, engineering downtime-resilient systems for critical medical care providers.",
      [
        "Legacy Refactor",
        "Docker",
        "SysAdmin",
        "Infrastructure",
        "DevOps"
      ],
      "bg-blue-500/40 text-red-200",
      Some("/carechain.png")),
    Project(
      6,
      "Freelance Projects",
      "Full Stack Developer",
      "Delivered diverse software solutions including mobile apps built with Flutter/Dart and web applications using React, Python (Django/Flask), and PHP.",
      [
        "Flutter",
        "Dart",
        "React",
        "Python",
        "Django",
        "Flask",
        "PHP"
      ],
      "bg-cyan-500/20 text-cyan-200",
      None)
  ]

  const ADDITIONAL_DETAILS: map<int, ProjectDetails> := map[
    1 := ProjectDetails(
      "December 2024 \U{2013} October 2025",
      [
        "Engineered a scalable DevOps pipeline on Google Cloud Platform, deploying Dockerized microservices and establishing 99.9% system observability using Prometheus, Loki, and Grafana.",
        "Optimized backend performance and database load by implementing a tiered caching and message queuing strategy to handle high-concurrency requests.",
        "Directed the full product lifecycle, managing the roadmap from technical design to production deployment while overseeing data security."
      ]),
    2 := ProjectDetails(
      "February 2022 \U{2013} October 2024",
      [
        "Created internal tooling to improve Developer Experience (DX) and streamlined coordination between frontend and backend engineering teams, resulting in faster feature delivery.",
        "Spearheaded smart contract development and security auditing using Foundry and Hardhat, implementing rigorous fuzzing and testing standards to protect user assets.",
        "Orchestrated crisis management protocols, mitigating critical on-chain incidents and leading the technical response to safeguard protocol integrity."
      ]),
    3 := ProjectDetails(
      "October 2021 \U{2013} February 2022",
      [
        "Transitioned from active user to Core Contributor and Technical Lead, leveraged deep product knowledge to enhance the user experience and significantly extend product features.",
        "Led frontend integration, ensuring precise real-time data visualization for user positions and protocol metrics."
      ]),
    4 := ProjectDetails(
      "February 2021 \U{2013} October 2021",
      [
        "Optimized application logic to streamline inventory tracking and order processing workflows."
      ]),
    5 := ProjectDetails(
      "February 2020 \U{2013} February 2021",
      [
        "Spearheaded a complete refactor of the legacy application to use modern, scalable, and developer-friendly tools, which directly increased engineering productivity.",
        "Engineered downtime-resilient systems, significantly improving platform reliability and uptime for critical medical care providers.",
        "Managed on-premise infrastructure as a SysAdmin, self-hosting the backend environment via Docker to ensure strict data privacy and compliance."
      ]),
    6 := ProjectDetails(
      "August 2019 \U{2013} February 2021",
      [
        "Delivered diverse software solutions for multiple clients across various industries.",
        "Built mobile applications using Flutter/Dart.",
        "Developed web applications using React, Python (Django/Flask), and PHP."
      ])
  ]

  /** `PROJECTS.find(p => p.id === id)`. */
  function FindProject(id: int): Option<Project> {
    Find(PROJECTS, (p: Project) => p.id == id)
  }

  /** A project is found exactly for the ids 1 to 6, and it is the table entry with
      that id. */
  lemma FindProjectById(id: int)
    ensures FindProject(id).Some? <==> 1 <= id <= 6
    ensures FindProject(id).Some? ==> FindProject(id).value == PROJECTS[id - 1]
  {
    ProjectIds();
    if 1 <= id <= 6 {
      assert PROJECTS[id - 1].id == id;
    }
  }

  /** Each achievement wrapped as an HTML list item, in order. */
  function ListItems(achievements: seq<string>): (r: seq<string>)
    ensures |r| == |achievements|
    ensures forall i :: 0 <= i < |r| ==> r[i] == "<li>" + achievements[i] + "</li>"
  {
    seq(|achievements|, i requires 0 <= i < |achievements| => "<li>" + achievements[i] + "</li>")
  }

  /** The list items, one per line. */
  function AchievementsHtml(achievements: seq<string>): string {
    Join(ListItems(achievements), "\n")
  }

  /** The HTML heading a project window starts with. */
  function Heading(p: Project): string {
    "<h2><strong>" + p.name + "</strong></h2>"
  }

  /** The closing paragraph: the project's tags separated by commas. */
  function TechnologiesParagraph(p: Project): string {
    "<p>" + Join(p.tags, ", ") + "</p>"
  }

  /** The achievements block, list items between the list tags. */
  function AchievementsList(d: ProjectDetails): string {
    "<ul>\n" + AchievementsHtml(d.achievements) + "\n</ul>"
  }

  /** The document a project window shows, laid out as the source's template literal. */
  function ProjectHtml(p: Project, d: ProjectDetails): (r: string)
    ensures StartsWith(r, Heading(p))
    ensures EndsWith(r, TechnologiesParagraph(p))
    ensures exists k :: OccursAt(r, AchievementsList(d), k)
  {
    var before := Heading(p) + "\n<p><em>Role: " + p.role + " | " + d.dateRange + "</em></p>\n\n<p>" +
                  p.desc + "</p>\n\n<h3><strong>Key Achievements:</strong></h3>\n";
    var after := "\n\n<h3><strong>Technologies:</strong></h3>\n";
    var r := before + AchievementsList(d) + after + TechnologiesParagraph(p);
    assert r[..|Heading(p)|] == Heading(p);
    assert r[|before|..|before| + |AchievementsList(d)|] == AchievementsList(d);
    assert OccursAt(r, AchievementsList(d), |before|);
    r
  }

  /** `getProjectContent`: the document of a project window, or the empty string when
      the id names no project or has no details entry. */
  function GetProjectContent(projectId: int): (r: string)
    ensures FindProject(projectId).None? ==> r == ""
    ensures projectId !in ADDITIONAL_DETAILS ==> r == ""
    ensures FindProject(projectId).Some? && projectId in ADDITIONAL_DETAILS ==>
              var p := FindProject(projectId).value;
              var d := ADDITIONAL_DETAILS[projectId];
              StartsWith(r, Heading(p)) && EndsWith(r, TechnologiesParagraph(p)) &&
              exists k :: OccursAt(r, AchievementsList(d), k)
  {
    match FindProject(projectId)
    case None => ""
    case Some(p) =>
      if projectId !in ADDITIONAL_DETAILS then "" else ProjectHtml(p, ADDITIONAL_DETAILS[projectId])
  }

  /** Achievement `i` of a project appears as one list item, after the items of the
      achievements before it and before those of the achievements after it, with a
      line break between neighbouring items. */
  lemma AchievementsInOrder(achievements: seq<string>, i: nat)
    requires i < |achievements|
    ensures AchievementsHtml(achievements) ==
              (if i == 0 then "" else AchievementsHtml(achievements[..i]) + "\n") +
              ("<li>" + achievements[i] + "</li>" +
               (if i + 1 == |achievements| then "" else "\n" + AchievementsHtml(achievements[i + 1..])))
  {
    ListItemsSplit(achievements, i);
    JoinAround(ListItems(achievements[..i]), "<li>" + achievements[i] + "</li>",
               ListItems(achievements[i + 1..]), "\n");
  }

  /** The items of a list are the items before position `i`, the item at `i`, and the
      items after it. */
  lemma ListItemsSplit(achievements: seq<string>, i: nat)
    requires i < |achievements|
    ensures ListItems(achievements) ==
              ListItems(achievements[..i]) + ["<li>" + achievements[i] + "</li>"] +
              ListItems(achievements[i + 1..])
  {
  }

  /** The application ids are pairwise distinct. */
  lemma AppIdsDistinct()
    ensures forall i, j :: 0 <= i < j < |APPS| ==> APPS[i].id != APPS[j].id
  {
  }

  /** The project ids are 1 to 6 in table order, hence pairwise distinct. */
  lemma ProjectIds()
    ensures |PROJECTS| == 6
    ensures forall i :: 0 <= i < |PROJECTS| ==> PROJECTS[i].id == i + 1
    ensures forall i, j :: 0 <= i < j < |PROJECTS| ==> PROJECTS[i].id != PROJECTS[j].id
  {
  }

  /** No application id has the prefix reserved for project windows, so a project
      window never takes the id of an application window. */
  lemma AppIdsAreNotProjectIds()
    ensures forall i :: 0 <= i < |APPS| ==> !StartsWith(APPS[i].id, "project-")
  {
    forall i | 0 <= i < |APPS|
      ensures !StartsWith(APPS[i].id, "project-")
    {
      var id := APPS[i].id;
      if |id| >= 8 {
        assert id[..8][7] == id[7] != '-';
      }
    }
  }

  /** The window open at load: the "about" application at (50, 50), 640 by 480,
      visible, not maximized, at z-index 10. */
  lemma InitialWindowsShape()
    ensures |INITIAL_WINDOWS| == 1
    ensures var w := INITIAL_WINDOWS[0];
            w.id == "about" && w.kind == "notepad" && w.isOpen && !w.isMinimized &&
            !w.isMaximized && w.zIndex == 10 && w.position == Position(50, 50) &&
            w.size == Size(640, 480)
  {
  }

  /** Every project of the table has a details entry, so the branch that returns the
      empty string for a missing entry is never taken by the shipped tables. */
  lemma EveryProjectHasContent(projectId: int)
    requires 1 <= projectId <= 6
    ensures FindProject(projectId).Some?
    ensures GetProjectContent(projectId) != ""
  {
    ProjectIds();
    assert PROJECTS[projectId - 1].id == projectId;
    assert projectId in ADDITIONAL_DETAILS;
    var p := FindProject(projectId).value;
    assert |Heading(p)| > 0;
  }
}
